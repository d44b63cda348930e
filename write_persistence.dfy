/** `POST /accounts/write_persistence` (src/routes/account/write_persistence.ts):
    a game server uploads a player's persistence blob. The handler answers
    `null` on every path, accepted or not, so the method has no result; its
    only effect is on the stored blob. The uploaded multipart file is the
    parameter `blob`. */
module WritePersistence {
  import opened Prelude
  import opened Accounts
  import opened GameServers

  datatype WritePersistenceQuery = WritePersistenceQuery(id: string, serverId: string)

  /** One upload: the query, the caller's ip and the uploaded bytes. */
  datatype Upload = Upload(query: WritePersistenceQuery, callerIp: string, blob: seq<Byte>)

  /** Who may write `account`'s blob: nobody when it is banned; anyone when it
      is on its own ("self") server, whose server need not be registered;
      otherwise only the registered server the account is currently on,
      calling from that server's ip. */
  predicate CallerMayWrite(account: Account, server: Option<GameServer>, query: WritePersistenceQuery, callerIp: string)
  {
    && !account.isBanned
    && (account.currentServerId == Some(SELF_SERVER_ID)
        || (&& server.Some?
            && callerIp == server.value.ip
            && account.currentServerId == Some(query.serverId)))
  }

  /** The accounts table after one upload: the blob is replaced only when the
      caller may write and the new blob is exactly as long as the old one. */
  function AfterUpload(rows: map<string, Account>, servers: map<string, GameServer>, upload: Upload): map<string, Account>
  {
    var query := upload.query;
    var server := if query.serverId in servers then Some(servers[query.serverId]) else None;
    if && query.id in rows
       && CallerMayWrite(rows[query.id], server, query, upload.callerIp)
       && |upload.blob| == |rows[query.id].persistentDataBaseline|
    then SetBaseline(rows, query.id, upload.blob)
    else rows
  }

  method HandleWritePersistence(accounts: AccountStore, registry: ServerRegistry, query: WritePersistenceQuery, callerIp: string, blob: seq<Byte>)
    requires accounts.Valid()
    modifies accounts
    ensures accounts.Valid()
    ensures accounts.rows == AfterUpload(old(accounts.rows), registry.servers, Upload(query, callerIp, blob))
  {
    var account := GetById(accounts, query.id);
    if account == null {
      return;
    }
    if account.isBanned {
      return;
    }
    // a player on their own server may not have that server registered
    if account.currentServerId != Some(SELF_SERVER_ID) {
      var server := registry.Get(query.serverId);
      if server.None? {
        return;
      }
      var isCorrectServer := callerIp == server.value.ip;
      var isCurrentServer := account.currentServerId == Some(query.serverId);
      if !isCorrectServer || !isCurrentServer {
        return;
      }
    }
    if |blob| == |account.persistentDataBaseline| {
      account.UpdatePersistentDataBaseline(blob);
    }
  }

  /** An absent or banned account is never written. */
  lemma AbsentOrBannedUnchanged(rows: map<string, Account>, servers: map<string, GameServer>, upload: Upload)
    requires upload.query.id !in rows || rows[upload.query.id].isBanned
    ensures AfterUpload(rows, servers, upload) == rows
  {
  }

  /** For an account on its own server, neither the registry nor the caller's
      ip matters: a blob of the right length is written. */
  lemma SelfServerSkipsServerCheck(rows: map<string, Account>, servers: map<string, GameServer>, upload: Upload)
    requires upload.query.id in rows
    requires var a := rows[upload.query.id];
      !a.isBanned && a.currentServerId == Some(SELF_SERVER_ID)
      && |upload.blob| == |a.persistentDataBaseline|
    ensures AfterUpload(rows, servers, upload)
         == rows[upload.query.id := rows[upload.query.id].(persistentDataBaseline := upload.blob)]
  {
  }

  /** Otherwise a write needs all three: the claimed server is registered, the
      caller calls from its ip, and it is the account's current server. */
  lemma OtherServerNeedsAllThree(rows: map<string, Account>, servers: map<string, GameServer>, upload: Upload)
    requires upload.query.id in rows
    requires rows[upload.query.id].currentServerId != Some(SELF_SERVER_ID)
    requires || upload.query.serverId !in servers
             || upload.callerIp != servers[upload.query.serverId].ip
             || rows[upload.query.id].currentServerId != Some(upload.query.serverId)
    ensures AfterUpload(rows, servers, upload) == rows
  {
  }

  /** A blob of another length is dropped silently. */
  lemma WrongLengthDropped(rows: map<string, Account>, servers: map<string, GameServer>, upload: Upload)
    requires upload.query.id in rows
    requires |upload.blob| != |rows[upload.query.id].persistentDataBaseline|
    ensures AfterUpload(rows, servers, upload) == rows
  {
  }

  /** The tables after a sequence of uploads, in order. */
  function AfterUploads(rows: map<string, Account>, servers: map<string, GameServer>, uploads: seq<Upload>): map<string, Account>
    decreases |uploads|
  {
    if |uploads| == 0 then rows
    else AfterUploads(AfterUpload(rows, servers, uploads[0]), servers, uploads[1..])
  }

  /** Two tables that differ at most in the contents of blobs of equal length. */
  ghost predicate SameButBlobContents(before: map<string, Account>, after: map<string, Account>)
  {
    && after.Keys == before.Keys
    && forall k :: k in before ==>
         && after[k] == before[k].(persistentDataBaseline := after[k].persistentDataBaseline)
         && |after[k].persistentDataBaseline| == |before[k].persistentDataBaseline|
  }

  /** However many uploads arrive, from whoever, every account keeps its blob
      length and every field other than the blob. */
  lemma {:induction false} UploadsKeepLengthsAndFields(rows: map<string, Account>, servers: map<string, GameServer>, uploads: seq<Upload>)
    ensures SameButBlobContents(rows, AfterUploads(rows, servers, uploads))
    decreases |uploads|
  {
    if |uploads| > 0 {
      var next := AfterUpload(rows, servers, uploads[0]);
      assert SameButBlobContents(rows, next);
      UploadsKeepLengthsAndFields(next, servers, uploads[1..]);
    }
  }
}
