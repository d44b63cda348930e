/** The game-server registry that the handlers consult through `getGameServer`,
    `addGameServer` and `GetGameServers()`. Its implementation (~gameservers)
    is not part of this model: it is a map from server id to record, and a
    lookup returns a copy of the stored record. */
module GameServers {
  import opened Prelude

  /** One entry of a server's `modInfo.Mods`; `pdiff` may be undefined. */
  datatype ModInfo = ModInfo(name: string, pdiff: Option<string>)

  datatype GameServer = GameServer(
    id: string,
    name: string,
    ip: string,
    port: nat,
    authPort: nat,
    hasPassword: bool,
    password: string,
    serverAuthToken: string,
    mods: seq<ModInfo>,
    lastHeartbeat: nat,
    playerCount: nat)

  /** Each record is stored under its own id. */
  ghost predicate KeyedById(servers: map<string, GameServer>)
  {
    forall k :: k in servers ==> servers[k].id == k
  }

  class ServerRegistry {
    var servers: map<string, GameServer>

    ghost predicate Valid()
      reads this
    {
      KeyedById(servers)
    }

    constructor (initial: map<string, GameServer>)
      requires KeyedById(initial)
      ensures Valid() && servers == initial
    {
      servers := initial;
    }

    /** `getGameServer(id)`, equally `GetGameServers()[id]`: the stored
        record when there is one, and it is the server with that id. */
    function Get(id: string): (server: Option<GameServer>)
      reads this
      ensures server.Some? <==> id in servers
      ensures server.Some? ==> server.value == servers[id]
      ensures server.Some? && Valid() ==> server.value.id == id
    {
      if id in servers then Some(servers[id]) else None
    }

    /** `addGameServer(server)`: stores the record under its own id. */
    method Add(server: GameServer)
      requires Valid()
      modifies this
      ensures Valid()
      ensures servers == old(servers)[server.id := server]
    {
      servers := servers[server.id := server];
    }
  }
}
