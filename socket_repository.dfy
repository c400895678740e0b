/** `src/socket/SocketRepository.ts`: the `client` table, which binds each
    live socket id to the user behind it, together with the store queries the
    socket service calls on the same repository.  Only `addClient` and
    `removeClient` are part of the source file; the other members follow the
    names and arguments of their call sites in `SocketService.ts` and
    `SocketController.ts`, over the in-memory chat database. */
module SocketRepository {
  import opened Common
  import opened Types
  import opened Tables
  import Db
  import ChatRepository

  // ---------------------------------------------------------------------------
  // The client table as values

  /** The user rows `WHERE username = ?` selects, in table order; none for
      an absent username. */
  function UsersNamed(users: seq<User>, username: Option<string>): (r: seq<User>)
    ensures forall k :: 0 <= k < |r| ==> r[k] in users && username == Some(r[k].username)
    ensures forall j :: 0 <= j < |users| && username == Some(users[j].username) ==> users[j] in r
  {
    Filter(users, (u: User) => username == Some(u.username))
  }

  /** The rows `INSERT INTO client (socketId, userId) SELECT ?, id FROM user
      WHERE username = ?` adds: one per user row with that username, none
      for an absent (`undefined`, SQL NULL) username. */
  function ClientRowsFor(users: seq<User>, socketId: SocketId, username: Option<string>): (r: seq<ClientRow>)
    ensures |r| == |UsersNamed(users, username)|
    ensures forall k :: 0 <= k < |r| ==> r[k] == ClientRow(socketId, UsersNamed(users, username)[k].id)
    ensures |r| <= |users|
    ensures forall k :: 0 <= k < |r| ==> r[k].socketId == socketId
    ensures forall k :: 0 <= k < |r| ==>
      exists u :: u in users && username == Some(u.username) && u.id == r[k].userId
    ensures forall j :: 0 <= j < |users| && username == Some(users[j].username) ==> ClientRow(socketId, users[j].id) in r
    ensures r == [] <==> username.None? || forall j :: 0 <= j < |users| ==> users[j].username != username.value
  {
    var named := UsersNamed(users, username);
    var rows := seq(|named|, k requires 0 <= k < |named| => ClientRow(socketId, named[k].id));
    RowsOfNamedUsers(users, socketId, username, named, rows);
    rows
  }

  /** The row-by-row facts behind `ClientRowsFor`, given the selected users
      and one row per selected user. */
  lemma RowsOfNamedUsers(users: seq<User>, socketId: SocketId, username: Option<string>,
                         named: seq<User>, rows: seq<ClientRow>)
    requires forall k :: 0 <= k < |named| ==> named[k] in users && username == Some(named[k].username)
    requires forall j :: 0 <= j < |users| && username == Some(users[j].username) ==> users[j] in named
    requires |rows| == |named| && forall k :: 0 <= k < |rows| ==> rows[k] == ClientRow(socketId, named[k].id)
    ensures forall k :: 0 <= k < |rows| ==>
      exists u :: u in users && username == Some(u.username) && u.id == rows[k].userId
    ensures forall j :: 0 <= j < |users| && username == Some(users[j].username) ==> ClientRow(socketId, users[j].id) in rows
    ensures rows == [] <==> username.None? || forall j :: 0 <= j < |users| ==> users[j].username != username.value
  {
    forall j | 0 <= j < |users| && username == Some(users[j].username)
      ensures ClientRow(socketId, users[j].id) in rows
    {
      var k :| 0 <= k < |named| && named[k] == users[j];
      assert rows[k] == ClientRow(socketId, users[j].id);
    }
    forall k | 0 <= k < |rows|
      ensures exists u :: u in users && username == Some(u.username) && u.id == rows[k].userId
    {
      var u := named[k];
      assert u in users && username == Some(u.username) && u.id == rows[k].userId;
    }
    if rows != [] {
      var j :| 0 <= j < |users| && users[j] == named[0];
      assert username == Some(users[j].username);
    }
  }

  /** `DELETE FROM client WHERE socketId = ?` */
  function WithoutSocket(clients: seq<ClientRow>, socketId: SocketId): (r: seq<ClientRow>)
    ensures forall k :: 0 <= k < |r| ==> r[k] in clients && r[k].socketId != socketId
    ensures forall k :: 0 <= k < |clients| && clients[k].socketId != socketId ==> clients[k] in r
  {
    Filter(clients, (c: ClientRow) => c.socketId != socketId)
  }

  /** The rows of one socket. */
  function RowsOfSocket(clients: seq<ClientRow>, socketId: SocketId): seq<ClientRow> {
    Filter(clients, (c: ClientRow) => c.socketId == socketId)
  }

  /** Deleting an unknown socket id changes nothing. */
  lemma WithoutUnknownSocketIsNoop(clients: seq<ClientRow>, socketId: SocketId)
    requires forall k :: 0 <= k < |clients| ==> clients[k].socketId != socketId
    ensures WithoutSocket(clients, socketId) == clients
  {
    FilterAll(clients, (c: ClientRow) => c.socketId != socketId);
  }

  /** Deleting twice is deleting once. */
  lemma WithoutSocketIdempotent(clients: seq<ClientRow>, socketId: SocketId)
    ensures WithoutSocket(WithoutSocket(clients, socketId), socketId) == WithoutSocket(clients, socketId)
  {
    WithoutUnknownSocketIsNoop(WithoutSocket(clients, socketId), socketId);
  }

  /** The rows of every other socket, and their order, are untouched. */
  lemma WithoutSocketKeepsOtherSockets(clients: seq<ClientRow>, socketId: SocketId, other: SocketId)
    requires other != socketId
    ensures RowsOfSocket(WithoutSocket(clients, socketId), other) == RowsOfSocket(clients, other)
  {
    var keep := (c: ClientRow) => c.socketId != socketId;
    var mine := (c: ClientRow) => c.socketId == other;
    FilterCommutes(clients, keep, mine);
    FilterAll(Filter(clients, mine), keep);
  }

  /** `removeClient` undoes `addClient`: deleting a socket's rows after
      adding them leaves the table it would have left before. */
  lemma RemoveUndoesAdd(clients: seq<ClientRow>, users: seq<User>, socketId: SocketId, username: Option<string>)
    ensures WithoutSocket(clients + ClientRowsFor(users, socketId, username), socketId) == WithoutSocket(clients, socketId)
  {
    var added := ClientRowsFor(users, socketId, username);
    FilterAppend(clients, added, (c: ClientRow) => c.socketId != socketId);
    FilterNone(added, (c: ClientRow) => c.socketId != socketId);
  }

  /** The first client row of a socket: what `getOne` gives for
      `SELECT * FROM client WHERE socketId = ?`. */
  function ClientOf(clients: seq<ClientRow>, socketId: SocketId): (r: Option<ClientRow>)
    ensures r.None? <==> forall k :: 0 <= k < |clients| ==> clients[k].socketId != socketId
    ensures r.Some? ==> r.value in clients && r.value.socketId == socketId
    ensures r.Some? ==> (exists k :: 0 <= k < |clients| && clients[k] == r.value &&
                                     (forall j :: 0 <= j < k ==> clients[j].socketId != socketId))
  {
    if clients == [] then None
    else if clients[0].socketId == socketId then Some(clients[0])
    else
      var rest := ClientOf(clients[1..], socketId);
      assert rest.Some? ==> (exists k :: 0 <= k < |clients| && clients[k] == rest.value &&
                                         (forall j :: 0 <= j < k ==> clients[j].socketId != socketId)) by {
        if rest.Some? {
          var k :| 0 <= k < |clients[1..]| && clients[1..][k] == rest.value &&
            forall j :: 0 <= j < k ==> clients[1..][j].socketId != socketId;
          assert clients[k + 1] == rest.value;
          assert forall j :: 0 <= j < k + 1 ==> clients[j].socketId != socketId by {
            forall j | 0 <= j < k + 1 ensures clients[j].socketId != socketId {
              if j > 0 { assert clients[j] == clients[1..][j - 1]; }
            }
          }
        }
      }
      rest
  }

  /** The client rows of the given users, over the distinct ids the
      parameterised `IN (?,…)` list carries; no query at all (`undefined`)
      for an empty id list. */
  function SocketIdsFromUserIds(clients: seq<ClientRow>, userIds: seq<UserId>): (r: Option<seq<ClientRow>>)
    ensures r.None? <==> userIds == []
    ensures r.Some? ==> forall k :: 0 <= k < |r.value| ==> r.value[k] in clients && r.value[k].userId in userIds
    ensures r.Some? ==> forall k :: 0 <= k < |clients| && clients[k].userId in userIds ==> clients[k] in r.value
  {
    match Db.ParameterizeArrayForQuery(userIds)
    case None => None
    case Some(query) =>
      Db.DistinctElements(userIds);
      var ids := query.distinctValueArray;
      Some(Filter(clients, (c: ClientRow) => c.userId in ids))
  }

  // ---------------------------------------------------------------------------
  // The repository

  class SocketRepository {
    const db: Database
    /** The configured default channel description. */
    const defaultChannelDescription: string

    constructor(db: Database, defaultChannelDescription: string)
      ensures this.db == db && this.defaultChannelDescription == defaultChannelDescription
    {
      this.db := db;
      this.defaultChannelDescription := defaultChannelDescription;
    }

    /** `addClient(socketId, username)` */
    method AddClient(socketId: SocketId, username: Option<string>)
      modifies db`clients
      ensures db.clients == old(db.clients) + ClientRowsFor(db.users, socketId, username)
    {
      db.clients := db.clients + ClientRowsFor(db.users, socketId, username);
    }

    /** `removeClient(socketId)` */
    method RemoveClient(socketId: SocketId)
      modifies db`clients
      ensures db.clients == WithoutSocket(old(db.clients), socketId)
    {
      db.clients := WithoutSocket(db.clients, socketId);
    }

    /** `getClient(socketId)` */
    function GetClient(socketId: SocketId): Option<ClientRow>
      reads db`clients
    {
      ClientOf(db.clients, socketId)
    }

    /** `clearClientTable()`: the table is emptied at start-up. */
    method ClearClientTable()
      modifies db`clients
      ensures db.clients == []
    {
      db.clients := [];
    }

    /** `isUserInServer({ userId, serverId })`; an undefined user is in no
        server. */
    predicate IsUserInServer(userId: Option<UserId>, serverId: ServerId)
      reads db`serverUsers
      ensures userId.None? ==> !IsUserInServer(userId, serverId)
    {
      userId.Some? && (serverId, userId.value) in db.serverUsers
    }

    /** `isUserInServer({ userId, channelId })`: the user is in the server
        that owns the channel. */
    predicate IsUserInServerOfChannel(userId: Option<UserId>, channelId: ChannelId)
      reads db`serverUsers, db`channels
      ensures userId.None? ==> !IsUserInServerOfChannel(userId, channelId)
      ensures IsUserInServerOfChannel(userId, channelId) ==>
        exists c :: c in db.channels && c.id == channelId && IsUserInServer(userId, c.serverId)
    {
      userId.Some? &&
      exists k :: 0 <= k < |db.channels| && db.channels[k].id == channelId &&
        (db.channels[k].serverId, userId.value) in db.serverUsers
    }

    /** `isUserInChannel({ userId, channelId })` */
    predicate IsUserInChannel(userId: Option<UserId>, channelId: ChannelId)
      reads db`channelUsers
      ensures userId.None? ==> !IsUserInChannel(userId, channelId)
    {
      userId.Some? && (channelId, userId.value) in db.channelUsers
    }

    /** `sendMessage({ userId, channelId, text, timestamp })`: one new message
        row; its `insertId` is returned. */
    method SendMessage(userId: UserId, channelId: ChannelId, text: string, timestamp: int) returns (insertId: int)
      modifies db`messages
      ensures forall k :: 0 <= k < |old(db.messages)| ==> old(db.messages)[k].id != insertId
      ensures db.messages == old(db.messages) + [MessageRow(insertId, channelId, userId, text, timestamp)]
    {
      insertId := NextId(IdsOf(db.messages, (m: MessageRow) => m.id));
      db.messages := db.messages + [MessageRow(insertId, channelId, userId, text, timestamp)];
    }

    /** Every stored message was written by a member of its channel: what
        the gate in front of `sendMessage` keeps true. */
    predicate MessagesFromMembers()
      reads db`messages, db`channelUsers
    {
      forall k :: 0 <= k < |db.messages| ==> (db.messages[k].channelId, db.messages[k].userId) in db.channelUsers
    }

    /** `getUserServers(userId)`: the servers the user is linked to. */
    function GetUserServers(userId: Option<UserId>): (r: seq<ChatServer>)
      reads db`servers, db`serverUsers
      ensures forall k :: 0 <= k < |r| ==> r[k] in db.servers && IsUserInServer(userId, r[k].id)
      ensures forall k :: 0 <= k < |db.servers| && IsUserInServer(userId, db.servers[k].id) ==> db.servers[k] in r
    {
      var links := db.serverUsers;
      Filter(db.servers, (s: ChatServer) => userId.Some? && (s.id, userId.value) in links)
    }

    /** `getUserChannels(userId)`: the channels the user is linked to. */
    function GetUserChannels(userId: Option<UserId>): (r: seq<ChatChannel>)
      reads db`channels, db`channelUsers
      ensures forall k :: 0 <= k < |r| ==> r[k] in db.channels && IsUserInChannel(userId, r[k].id)
      ensures forall k :: 0 <= k < |db.channels| && IsUserInChannel(userId, db.channels[k].id) ==> db.channels[k] in r
    {
      var links := db.channelUsers;
      Filter(db.channels, (c: ChatChannel) => userId.Some? && (c.id, userId.value) in links)
    }

    /** `getUsersInServers(serverIds)`: the users linked to any of them. */
    function GetUsersInServers(serverIds: seq<ServerId>): (r: seq<User>)
      reads db`users, db`serverUsers
      ensures forall k :: 0 <= k < |r| ==>
        r[k] in db.users && exists i :: 0 <= i < |serverIds| && IsUserInServer(Some(r[k].id), serverIds[i])
      ensures forall k, i :: 0 <= k < |db.users| && 0 <= i < |serverIds| && IsUserInServer(Some(db.users[k].id), serverIds[i]) ==>
        db.users[k] in r
    {
      var links := db.serverUsers;
      Filter(db.users, (u: User) => exists k :: 0 <= k < |serverIds| && (serverIds[k], u.id) in links)
    }

    /** `getSocketIdsFromUserIds(userIds)` */
    function GetSocketIdsFromUserIds(userIds: seq<UserId>): Option<seq<ClientRow>>
      reads db`clients
    {
      SocketIdsFromUserIds(db.clients, userIds)
    }

    /** `createChannel(userId, params)`: as the chat repository's, with the
        creator named by id. */
    method CreateChannel(userId: UserId, params: CreateChannelParams) returns (channel: ChatChannel)
      modifies db`channels, db`channelUsers
      ensures channel == ChatRepository.NewChannelRow(channel.id, params, defaultChannelDescription)
      ensures forall i :: 0 <= i < |old(db.channels)| ==> old(db.channels)[i].id != channel.id
      ensures db.channels == old(db.channels) + [channel]
      ensures db.channelUsers == old(db.channelUsers) +
        set id | id in ChatRepository.NewChannelMembers(db.users, db.serverUsers, params.serverId,
                                                       ChatRepository.LinkRuleOf(params), ChatRepository.ById(userId)) :: (channel.id, id)
    {
      channel := ChatRepository.InsertChannel(db, defaultChannelDescription, ChatRepository.ById(userId), params);
    }
  }
}
