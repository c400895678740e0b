/** The entity records of `src/types.ts`, as rows of the chat database and as
    the payloads the services exchange. */
module Types {
  import opened Common

  datatype User = User(id: UserId, username: string, displayName: string, pass: string)

  /** One row of the `client` table: a live socket and the user behind it. */
  datatype ClientRow = ClientRow(socketId: SocketId, userId: UserId)

  datatype ChatServer = ChatServer(id: ServerId, name: string, ownerUserId: Option<UserId>)

  datatype ChatChannel = ChatChannel(
    id: ChannelId,
    name: string,
    serverId: ServerId,
    description: string,
    isPrivate: bool,
    autoAddNewMembers: bool)

  /** A row of the `message` table; `time` is the millisecond timestamp the
      sender's service assigned. */
  datatype MessageRow = MessageRow(id: int, channelId: ChannelId, userId: UserId, content: string, time: int)

  datatype BlacklistRow = BlacklistRow(token: string, insertDate: int)

  /** The members of the `MessageContentType` enum as the source declares
      them.  The handlers also name `MESSAGE` and `INVITE`, which the enum
      lacks, so a packet's content type is `None` (JavaScript `undefined`). */
  datatype ContentType = String | Quote | Thread

  /** A decoded JSON Web Token.  `userId` is the property the socket
      service reads although the declared type has no such member: `None`
      when the signed payload carried none. */
  datatype JwtDecoded = JwtDecoded(username: string, userId: Option<UserId>, iat: string, exp: string)

  /** The payload `generateToken` signs: the user row without `pass`. */
  datatype TokenPayload = TokenPayload(id: UserId, username: string, displayName: string)

  /** `CreateChannelParams`; every optional member is `None` when absent. */
  datatype CreateChannelParams = CreateChannelParams(
    channelName: string,
    serverId: ServerId,
    description: Option<string>,
    isPrivate: Option<bool>,
    addEveryone: Option<bool>,
    addTheseUsers: Option<seq<string>>,
    autoAddNewMembers: Option<bool>)
}
