/** `src/chat/ChatService.ts`: the signed-in user's server and channel
    creation, named by the username the token carries. */
module ChatService {
  import opened Common
  import opened Types
  import opened Tables
  import opened ChatRepository

  const NotInServer: Failure := CustomError(401, "user is not part of that server", Validation)

  class ChatService {
    const repository: ChatRepository
    const verifyJwt: string -> Option<JwtDecoded>

    constructor(repository: ChatRepository, verifyJwt: string -> Option<JwtDecoded>)
      ensures this.repository == repository && this.verifyJwt == verifyJwt
    {
      this.repository := repository;
      this.verifyJwt := verifyJwt;
    }

    /** `createServer(token, serverName)`: the token's username and the given,
        possibly absent, name go to the repository unchanged. */
    method CreateServer(token: string, serverName: Option<string>) returns (r: Result<ChatServer>)
      modifies repository.db`servers, repository.db`serverUsers
      ensures r.Err? <==> verifyJwt(token).None?
      ensures r.Err? ==> r.error == TokenRejected && unchanged(repository.db`servers, repository.db`serverUsers)
      ensures r.Ok? ==>
        && r.value.name == ServerName(verifyJwt(token).value.username, serverName)
        && r.value.ownerUserId == UserIdByName(repository.db.users, verifyJwt(token).value.username)
        && repository.db.servers == old(repository.db.servers) + [r.value]
        && repository.db.serverUsers == old(repository.db.serverUsers) +
             (if r.value.ownerUserId.Some? then {(r.value.id, r.value.ownerUserId.value)} else {})
    {
      var decoded := verifyJwt(token);
      if decoded.None? {
        return Err(TokenRejected);
      }
      var server := repository.CreateServer(decoded.value.username, serverName);
      r := Ok(server);
    }

    /** `createChannel(token, params)`: the membership test on the token's
        username and `params.serverId` comes before any write. */
    method CreateChannel(token: string, params: CreateChannelParams) returns (r: Result<ChatChannel>)
      modifies repository.db`channels, repository.db`channelUsers
      ensures verifyJwt(token).None? ==> r == Err(TokenRejected)
      ensures verifyJwt(token).Some? && !repository.IsUserInServer(verifyJwt(token).value.username, params.serverId) ==>
        r == Err(NotInServer)
      ensures r.Ok? <==> verifyJwt(token).Some? && repository.IsUserInServer(verifyJwt(token).value.username, params.serverId)
      ensures r.Err? ==> unchanged(repository.db`channels, repository.db`channelUsers)
      ensures r.Ok? ==>
        && r.value == NewChannelRow(r.value.id, params, repository.defaultChannelDescription)
        && repository.db.channels == old(repository.db.channels) + [r.value]
        && repository.db.channelUsers == old(repository.db.channelUsers) +
             set id | id in NewChannelMembers(repository.db.users, repository.db.serverUsers, params.serverId,
                                              LinkRuleOf(params), ByName(verifyJwt(token).value.username)) :: (r.value.id, id)
    {
      var decoded := verifyJwt(token);
      if decoded.None? {
        return Err(TokenRejected);
      }
      var username := decoded.value.username;
      if !repository.IsUserInServer(username, params.serverId) {
        return Err(NotInServer);
      }
      var channel := repository.CreateChannel(username, params);
      r := Ok(channel);
    }
  }

  /** The creator passes the membership gate, and the creator-only rule
      needs no server membership: a channel created by a member with neither
      `addEveryone` nor a non-empty `addTheseUsers` has exactly its creator
      as member. */
  lemma CreatorOnlyChannelHasTheCreator(users: seq<User>, serverUsers: set<(ServerId, UserId)>,
                                        params: CreateChannelParams, username: string)
    requires params.addEveryone != Some(true)
    requires params.addTheseUsers.None? || |params.addTheseUsers.value| == 0
    requires UserIdByName(users, username).Some?
    ensures UserIdByName(users, username).value in NewChannelMembers(users, serverUsers, params.serverId, LinkRuleOf(params), ByName(username))
  {
    var j :| 0 <= j < |users| && users[j].username == username && users[j].id == UserIdByName(users, username).value;
    assert users[j] in users && IsCreator(users[j], ByName(username));
  }
}
