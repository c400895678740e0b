/** `src/socket/SocketService.ts`: the authorisation gates in front of the
    socket store.  The JSON Web Token verifier (`verifyJwtAsync`) is a
    parameter of the service: `None` stands for a rejected token, which the
    service lets propagate as `TokenRejected`. */
module SocketService {
  import opened Common
  import opened Types
  import opened Tables
  import ChatRepository
  import opened SocketRepository

  /** `{ servers, channels, userId, users }` */
  datatype StartupData = StartupData(servers: seq<ChatServer>, channels: seq<ChatChannel>, userId: Option<UserId>, users: seq<User>)

  /** `{ timestamp, userId, id }` as `sendMessage` returns it. */
  datatype MessageReceipt = MessageReceipt(timestamp: int, userId: UserId, id: int)

  const NotInServer: Failure := CustomError(401, "user is not part of that server", Validation)
  const NotInChannel: Failure := CustomError(401, "user is not part of that channel", Validation)

  /** `token?.userId`, handed to a query that compares it with `username`:
      the id travels as its decimal text. */
  function UsernameArgument(token: Option<JwtDecoded>): (r: Option<string>)
    ensures r.None? <==> token.None? || token.value.userId.None?
    ensures r.Some? ==> r.value == DecimalText(token.value.userId.value)
  {
    if token.Some? && token.value.userId.Some? then Some(DecimalText(token.value.userId.value)) else None
  }

  class SocketService {
    const repository: SocketRepository
    const verifyJwt: string -> Option<JwtDecoded>

    constructor(repository: SocketRepository, verifyJwt: string -> Option<JwtDecoded>)
      ensures this.repository == repository && this.verifyJwt == verifyJwt
    {
      this.repository := repository;
      this.verifyJwt := verifyJwt;
    }

    /** `addClient(socketId, token)` */
    method AddClient(socketId: SocketId, token: Option<JwtDecoded>)
      modifies repository.db`clients
      ensures repository.db.clients == old(repository.db.clients) + ClientRowsFor(repository.db.users, socketId, UsernameArgument(token))
    {
      repository.AddClient(socketId, UsernameArgument(token));
    }

    /** `removeClient(socketId)` */
    method RemoveClient(socketId: SocketId)
      modifies repository.db`clients
      ensures repository.db.clients == WithoutSocket(old(repository.db.clients), socketId)
    {
      repository.RemoveClient(socketId);
    }

    /** `getClient(id)` */
    function GetClient(socketId: SocketId): (r: Option<ClientRow>)
      reads repository, repository.db`clients
      ensures r.Some? ==> r.value in repository.db.clients && r.value.socketId == socketId
      ensures r.None? <==> forall k :: 0 <= k < |repository.db.clients| ==> repository.db.clients[k].socketId != socketId
    {
      repository.GetClient(socketId)
    }

    /** `clearClientTable()` */
    method ClearClientTable()
      modifies repository.db`clients
      ensures repository.db.clients == []
    {
      repository.ClearClientTable();
    }

    /** `getStartupData(token)`: the user's servers and channels, and the
        users of exactly those servers. */
    function GetStartupData(token: string): (r: Result<StartupData>)
      reads repository, repository.db`servers, repository.db`serverUsers, repository.db`channels,
            repository.db`channelUsers, repository.db`users
      ensures r.Err? <==> verifyJwt(token).None?
      ensures r.Err? ==> r.error == TokenRejected
      ensures r.Ok? ==> r.value.userId == verifyJwt(token).value.userId
      ensures r.Ok? ==> forall k :: 0 <= k < |r.value.servers| ==>
        r.value.servers[k] in repository.db.servers && repository.IsUserInServer(r.value.userId, r.value.servers[k].id)
      ensures r.Ok? ==> forall k ::
        (0 <= k < |repository.db.servers| && repository.IsUserInServer(r.value.userId, repository.db.servers[k].id)) ==>
        repository.db.servers[k] in r.value.servers
      ensures r.Ok? ==> forall k :: 0 <= k < |r.value.channels| ==>
        r.value.channels[k] in repository.db.channels && repository.IsUserInChannel(r.value.userId, r.value.channels[k].id)
      ensures r.Ok? ==> forall k ::
        (0 <= k < |repository.db.channels| && repository.IsUserInChannel(r.value.userId, repository.db.channels[k].id)) ==>
        repository.db.channels[k] in r.value.channels
      ensures r.Ok? ==> r.value.users == repository.GetUsersInServers(IdsOf(r.value.servers, (s: ChatServer) => s.id))
    {
      match verifyJwt(token)
      case None => Err(TokenRejected)
      case Some(decoded) =>
        var servers := repository.GetUserServers(decoded.userId);
        var channels := repository.GetUserChannels(decoded.userId);
        Ok(StartupData(servers, channels, decoded.userId, repository.GetUsersInServers(IdsOf(servers, (s: ChatServer) => s.id))))
    }

    /** Every user in the start-up data shares a server with the signed-in
        user. */
    lemma StartupUsersShareAServer(token: string)
      requires GetStartupData(token).Ok?
      ensures var data := GetStartupData(token).value;
        forall k :: 0 <= k < |data.users| ==>
          data.users[k] in repository.db.users &&
          exists m :: 0 <= m < |data.servers| &&
            repository.IsUserInServer(data.userId, data.servers[m].id) &&
            (data.servers[m].id, data.users[k].id) in repository.db.serverUsers
    {
      var data := GetStartupData(token).value;
      var ids := IdsOf(data.servers, (s: ChatServer) => s.id);
      var links := repository.db.serverUsers;
      forall k | 0 <= k < |data.users|
        ensures data.users[k] in repository.db.users
        ensures exists m ::
          && 0 <= m < |data.servers|
          && repository.IsUserInServer(data.userId, data.servers[m].id)
          && (data.servers[m].id, data.users[k].id) in repository.db.serverUsers
      {
        var u := data.users[k];
        assert exists i :: 0 <= i < |ids| && (ids[i], u.id) in links;
        var i :| 0 <= i < |ids| && (ids[i], u.id) in links;
        assert ids[i] == data.servers[i].id;
      }
    }

    /** `createChannel(token, params)`: only a member of `params.serverId`
        may create a channel in it; a rejected caller creates nothing.  The
        result is a shallow copy of the stored row, equal to it. */
    method CreateChannel(token: string, params: CreateChannelParams) returns (r: Result<ChatChannel>)
      modifies repository.db`channels, repository.db`channelUsers
      ensures verifyJwt(token).None? ==> r == Err(TokenRejected)
      ensures verifyJwt(token).Some? && !repository.IsUserInServer(verifyJwt(token).value.userId, params.serverId) ==>
        r == Err(NotInServer)
      ensures r.Ok? <==> verifyJwt(token).Some? && repository.IsUserInServer(verifyJwt(token).value.userId, params.serverId)
      ensures r.Err? ==> unchanged(repository.db`channels, repository.db`channelUsers)
      ensures r.Ok? ==>
        && r.value == ChatRepository.NewChannelRow(r.value.id, params, repository.defaultChannelDescription)
        && repository.db.channels == old(repository.db.channels) + [r.value]
        && repository.db.channelUsers == old(repository.db.channelUsers) +
             set id | id in ChatRepository.NewChannelMembers(repository.db.users, repository.db.serverUsers, params.serverId,
                                                            ChatRepository.LinkRuleOf(params),
                                                            ChatRepository.ById(verifyJwt(token).value.userId.value)) :: (r.value.id, id)
    {
      var decoded := verifyJwt(token);
      if decoded.None? {
        return Err(TokenRejected);
      }
      var userId := decoded.value.userId;
      if !repository.IsUserInServer(userId, params.serverId) {
        return Err(NotInServer);
      }
      var channel := repository.CreateChannel(userId.value, params);
      r := Ok(channel);
    }

    /** The two membership checks of `sendMessage`, both passed. */
    predicate MaySend(token: string, channelId: ChannelId)
      reads repository, repository.db`serverUsers, repository.db`channels, repository.db`channelUsers
    {
      verifyJwt(token).Some? &&
      repository.IsUserInServerOfChannel(verifyJwt(token).value.userId, channelId) &&
      repository.IsUserInChannel(verifyJwt(token).value.userId, channelId)
    }

    /** `sendMessage({ text, channelId, token })`: server membership, then
        channel membership, then one stored message stamped `now`. */
    method SendMessage(token: string, text: string, channelId: ChannelId, now: int) returns (r: Result<MessageReceipt>)
      modifies repository.db`messages
      ensures verifyJwt(token).None? ==> r == Err(TokenRejected)
      ensures verifyJwt(token).Some? && !repository.IsUserInServerOfChannel(verifyJwt(token).value.userId, channelId) ==>
        r == Err(NotInServer)
      ensures (verifyJwt(token).Some? && repository.IsUserInServerOfChannel(verifyJwt(token).value.userId, channelId) &&
               !repository.IsUserInChannel(verifyJwt(token).value.userId, channelId)) ==>
        r == Err(NotInChannel)
      ensures r.Ok? <==> MaySend(token, channelId)
      ensures r.Err? ==> repository.db.messages == old(repository.db.messages)
      ensures r.Ok? ==>
        && r.value.timestamp == now
        && verifyJwt(token).value.userId == Some(r.value.userId)
        && (forall k :: 0 <= k < |old(repository.db.messages)| ==> old(repository.db.messages)[k].id != r.value.id)
        && repository.db.messages == old(repository.db.messages) + [MessageRow(r.value.id, channelId, r.value.userId, text, now)]
      ensures old(repository.MessagesFromMembers()) ==> repository.MessagesFromMembers()
    {
      var decoded := verifyJwt(token);
      if decoded.None? {
        return Err(TokenRejected);
      }
      var userId := decoded.value.userId;
      if !repository.IsUserInServerOfChannel(userId, channelId) {
        return Err(NotInServer);
      }
      if !repository.IsUserInChannel(userId, channelId) {
        return Err(NotInChannel);
      }
      var timestamp := now;
      var id := repository.SendMessage(userId.value, channelId, text, timestamp);
      r := Ok(MessageReceipt(timestamp, userId.value, id));
    }
  }

  /** Without a `userId` in the decoded token (a token whose payload is the
      user row carries `id`, not `userId`) no client row is recorded. */
  lemma NoUserIdRecordsNoClient(users: seq<User>, socketId: SocketId, token: Option<JwtDecoded>)
    requires token.None? || token.value.userId.None?
    ensures ClientRowsFor(users, socketId, UsernameArgument(token)) == []
  {
  }
}
