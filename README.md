# Chat backend sessions, rooms and gates — a Dafny model

This project models the session, room and authorisation layer of a
Socket.IO/Express group-chat backend (users, servers, channels, messages and
direct messages), together with the chat store, the login/registration
chains and two pure helpers. It proves properties of that model.

- **Handlers** (`SocketController`): connection, disconnect clean-up,
  the `setActiveServer` and `setActiveChannel` room transitions, and the
  `message` and `directMessage` fan-out. A socket is a class whose `rooms`
  set changes by `Join`/`Leave`. What a handler emits is returned as data:
  a set of rooms, or a list of socket deliveries.
- **Session tables**: `ActiveSockets`, an in-process map of live sockets,
  and the `client` table binding socket ids to users (`SocketRepository`).
- **Gates**: `SocketService` checks server membership, then channel
  membership, then stores a message stamped with the clock reading.
  `ChatService` checks server membership before creating a channel.
- **Chat store** (`ChatRepository`): default server naming, channel
  defaults, the three-way rule choosing the users linked to a new channel,
  and message pages by time with offset and limit.
- **Auth** (`AuthRepository`, `AuthService`): user lookup and insert, the
  token blacklist, and the `login`, `register`, `logout`, `generateToken`
  and `isValidToken` decision chains.
- **Pure helpers**: `parameterizeArrayForQuery` (`Db`) and `timespan`
  (`Timespan`).

The MySQL database is one in-memory `Tables.Database` object. It has a
field per table. The link tables `link_server_user` and `link_channel_user`
are sets of id pairs. Repositories, services and the controller share that
object, and each method's `modifies` clause names exactly the tables it
writes.

Foreign code is passed in as parameters:

- the JSON Web Token verifier is `string -> Option<JwtDecoded>`, where `None`
  is a rejected token, which the services let propagate as `TokenRejected`;
- the token signer;
- `bcrypt.compare`;
- the bcrypt hash of a new password;
- the `ms` duration parser;
- the wall clock (`now`).

Three points where the model follows the code rather than the declared types:

- `JwtDecoded` declares no `userId`, yet `SocketService` reads one. The model
  gives the decoded token an optional `userId`.
- The payload `generateToken` signs is the user row without `pass`. That
  payload carries `id`, not `userId`. So with tokens this backend issues,
  the socket gates see no user. `SocketService.NoUserIdRecordsNoClient` and
  the `SendMessage` contract state what follows: no client row is recorded,
  and sending is refused with 401.
- `MessageContentType` has no `MESSAGE` member, so a packet's `contentType`
  is `None` (`undefined`).

Module layout:

| module | role |
|---|---|
| `Common` | options, results, errors, decimal text, `Filter` |
| `Types` | rows and payloads |
| `Tables` | the database and id allocation |
| `Db` | the placeholder helper |
| `Timespan` | token expiry |
| `Rooms` | room keys and room transitions |
| `ActiveSockets` | the live-socket map |
| `SocketRepository` | the client table and the store queries |
| `SocketService` | the membership gates |
| `ChatRepository` | the chat store |
| `ChatService` | the channel-creation gate |
| `AuthRepository` | users and the token blacklist |
| `AuthService` | the login and token chains |
| `SocketController` | the event handlers |

## Model

| member | source | states |
|---|---|---|
| Db.ParameterizeArrayForQuery | src/db/db.ts:20-30 | `None` exactly for an empty input; otherwise the distinct values, without duplicates, holding exactly the input's elements, and a placeholder string with one `?` per distinct value and length 2n−1 |
| Db.DistinctElements | src/db/db.ts:21 | a value is among the distinct values iff it occurs in the input |
| Db.DistinctHasNoDuplicates | src/db/db.ts:21 | no value occurs twice among the distinct values |
| Db.DistinctKeepsFirstOccurrenceOrder | src/db/db.ts:21 | distinct values appear in the order of their first occurrences in the input |
| Db.ParameterStringShape | src/db/db.ts:25-28 | for n ≥ 1 values the string is `?,` repeated n−1 times then `?`: n question marks, 2n−1 characters, a final `?` |
| Timespan.BaseTime | src/utils/timespan.ts:6 | the base time is `iat` when non-zero, the clock reading otherwise |
| Timespan.Timespan | src/utils/timespan.ts:5-19 | succeeds iff `time` is a number or a string `ms` can parse; failures are the 500 configuration error; the result minus the base time is the duration |
| Timespan.NumericTimeRoundTrip | src/utils/timespan.ts:14-15 | a numeric `time` gives base + time, so the duration is recovered exactly |
| Timespan.UnparsableIsConfigError | src/utils/timespan.ts:8-18 | an unparsable string, and any other kind of value, gives the 500 CONFIG error |
| Timespan.TimespanMonotone | src/utils/timespan.ts:5-19 | a longer duration never gives an earlier expiry |
| ActiveSockets.ActiveSockets.Add | src/socket/ActiveSockets.ts:7-9 | the socket is stored under its id, overwriting keeps the entry count, every other entry is unchanged |
| ActiveSockets.ActiveSockets.Remove | src/socket/ActiveSockets.ts:11-13 | as written the map is left unchanged (the `_.omit` result is dropped) |
| ActiveSockets.ActiveSockets.RemoveIntended | src/socket/ActiveSockets.ts:11-13 | the corrected `remove`: the id is gone and every other entry is kept |
| ActiveSockets.AddThenRemoveKeepsSocket | src/socket/ActiveSockets.ts:7-13 | as written, a socket added then removed is still in the table |
| ActiveSockets.AddThenRemoveIntendedDropsSocket | src/socket/ActiveSockets.ts:7-13 | with the corrected `remove`, add then remove leaves no entry for the socket and the other keys as they were |
| Rooms.ServerRoomInjective | src/socket/SocketController.ts:67-69 | different server ids give different `server#` rooms |
| Rooms.ServerTransition | src/socket/SocketController.ts:66-71 | at most `server#new` is added, and every room other than the left `server#old` is kept |
| Rooms.ServerTransitionEffect | src/socket/SocketController.ts:66-71 | `server#new` is always joined, `server#old` is left exactly when `old` is truthy and differs, no other room changes |
| Rooms.SameServerOnlyJoins | src/socket/SocketController.ts:66-71 | re-selecting the current server keeps the socket in that room and changes nothing else |
| Rooms.ServerTransitionIdempotent | src/socket/SocketController.ts:66-71 | replaying a `setActiveServer` event has no further effect |
| Rooms.ChannelTransition | src/socket/SocketController.ts:73-84 | as written: at most `channel#new` is added, and every room other than `channel#old` is kept |
| Rooms.ChannelTransitionEffect | src/socket/SocketController.ts:73-84 | `channel#new` is joined exactly for a `c#`/`d#` key; the old room is left when the guard holds and kept as it was when the guard does not fire; no other room changes |
| Rooms.LeaveGuardIgnoresDmPrefix | src/socket/SocketController.ts:77-83 | the leave guard holds iff the old key is non-empty, differs, and does not start with `c#` |
| Rooms.ChannelRoomsAccumulate | src/socket/SocketController.ts:73-84 | as written, switching from `c#1` to `c#2` leaves the socket in both channel rooms |
| Rooms.IntendedChannelTransition | src/socket/SocketController.ts:73-84 | with the corrected guard: at most `channel#new` is added, every room other than `channel#old` is kept, and nothing is left for an old key without a `c#`/`d#` prefix |
| Rooms.IntendedKeepsOneChannelRoom | src/socket/SocketController.ts:73-84 | with the corrected leave guard, switching between channel keys leaves the socket in exactly the new channel room |
| Rooms.MessageRoomNeverJoined | src/socket/SocketController.ts:211 | as written, `channel#<channelId>` differs from every room `setActiveChannel` joins, so no socket reaches it that way |
| Rooms.IntendedMessageRoomIsJoined | src/socket/SocketController.ts:211 | the corrected room `channel#c#<channelId>` is joined by a socket that made that channel active, and is the room of no other channel id |
| SocketRepository.UsersNamed | src/socket/SocketRepository.ts:12 | exactly the user rows with that username, in table order; none for an absent username |
| SocketRepository.ClientRowsFor | src/socket/SocketRepository.ts:10-15 | one (socketId, id) row per matching user, in table order, so a username matched by several users gives several rows; none iff the username is absent or matches no user |
| SocketRepository.WithoutSocket | src/socket/SocketRepository.ts:17-19 | no row of the socket is left, every row of another socket is kept |
| SocketRepository.WithoutUnknownSocketIsNoop | src/socket/SocketRepository.ts:18 | deleting an unknown socket id changes nothing |
| SocketRepository.WithoutSocketIdempotent | src/socket/SocketRepository.ts:18 | deleting twice equals deleting once |
| SocketRepository.WithoutSocketKeepsOtherSockets | src/socket/SocketRepository.ts:18 | the rows of any other socket, in order, are untouched |
| SocketRepository.SocketRepository.AddClient | src/socket/SocketRepository.ts:10-15 | the client table gains exactly the rows of `ClientRowsFor` |
| SocketRepository.SocketRepository.RemoveClient | src/socket/SocketRepository.ts:17-19 | the client table loses exactly the socket's rows |
| SocketRepository.SocketRepository.ClearClientTable | src/socket/SocketService.ts:27-29 | the client table is empty afterwards |
| SocketRepository.SocketRepository.SendMessage | src/socket/SocketService.ts:66-67 | one message row with the user, channel, text and timestamp is appended under a fresh id, which is returned |
| SocketRepository.SocketRepository.IsUserInServer | src/socket/SocketService.ts:48 | an absent user id is in no server; otherwise the (server, user) link row exists |
| SocketRepository.SocketRepository.IsUserInServerOfChannel | src/socket/SocketService.ts:58 | an absent user id passes no gate; a user passes only when some channel with that id belongs to a server the user is linked to |
| SocketRepository.SocketRepository.IsUserInChannel | src/socket/SocketService.ts:62 | an absent user id is in no channel; otherwise the (channel, user) link row exists |
| SocketRepository.SocketRepository.GetUserServers | src/socket/SocketService.ts:33 | exactly the stored servers the user is linked to |
| SocketRepository.SocketRepository.GetUserChannels | src/socket/SocketService.ts:34 | exactly the stored channels the user is linked to |
| SocketRepository.SocketRepository.GetUsersInServers | src/socket/SocketService.ts:35-36 | exactly the stored users linked to one of the given server ids |
| SocketRepository.SocketRepository.CreateChannel | src/socket/SocketService.ts:52 | assumed to be `InsertChannel` with the creator named by user id (the method is not defined in the source) |
| SocketRepository.RemoveUndoesAdd | src/socket/SocketRepository.ts:10-19 | removing a socket after adding its rows leaves the table removal would have left before the add |
| SocketRepository.ClientOf | src/socket/SocketService.ts:23-25 | the first client row of the socket (no earlier row has that socket id), absent iff the socket has no row |
| SocketRepository.SocketIdsFromUserIds | src/socket/SocketController.ts:241-244 | no result iff the id list is empty; otherwise exactly the client rows whose user is in the list |
| SocketService.UsernameArgument | src/socket/SocketService.ts:14-17 | the lookup key is the decoded token's `userId`, absent when the token or its `userId` is absent |
| SocketService.NoUserIdRecordsNoClient | src/socket/SocketService.ts:14-17 | without a token or a `userId` no client row is recorded |
| SocketService.SocketService.AddClient | src/socket/SocketService.ts:14-17 | records the client rows of the token's `userId` |
| SocketService.SocketService.RemoveClient | src/socket/SocketService.ts:19-21 | the client table loses exactly the socket's rows |
| SocketService.SocketService.GetClient | src/socket/SocketService.ts:23-25 | the socket's client row, absent iff the socket has none |
| SocketService.SocketService.ClearClientTable | src/socket/SocketService.ts:27-29 | the client table is empty afterwards |
| SocketService.SocketService.GetStartupData | src/socket/SocketService.ts:31-38 | a rejected token fails; otherwise exactly the servers the user is linked to, channels the user is linked to, and the users of exactly the returned servers' ids |
| SocketService.SocketService.StartupUsersShareAServer | src/socket/SocketService.ts:33-37 | every returned user is linked to one of the returned servers, all of which the signed-in user belongs to |
| SocketService.SocketService.CreateChannel | src/socket/SocketService.ts:46-54 | a rejected token or a non-member of `params.serverId` (401 VALIDATION) creates nothing; otherwise exactly one channel row and its link rows, returned as stored |
| SocketService.SocketService.SendMessage | src/socket/SocketService.ts:56-69 | server membership (401), then channel membership (401), then one stored message stamped `now`; nothing stored on rejection; the receipt carries that timestamp, the user and the new id; messages stay written by channel members |
| ChatRepository.DefaultServerNameShape | src/chat/ChatRepository.ts:40-41 | the default name is the username with its first letter upper-cased (ASCII), followed by `'s Server` |
| ChatRepository.SuppliedServerNameVerbatim | src/chat/ChatRepository.ts:41 | a supplied name, even empty, is used as is; only an absent name takes the default |
| ChatRepository.ChatRepository.CreateServer | src/chat/ChatRepository.ts:39-60 | one server row with that name, owned by the creator's id (NULL if no such user) under a fresh id, and the creator linked to it, so an existing creator passes `isUserInServer` for it |
| ChatRepository.ChatRepository.IsUserInServer | src/chat/ChatRepository.ts:105-113 | a username no user has is in no server; membership means a user with that name is linked to the server; conversely, when every user of that name is linked, the name is in the server |
| ChatRepository.NewChannelRow | src/chat/ChatRepository.ts:67-77 | absent description, `isPrivate` and `autoAddNewMembers` take the configured description, false and false |
| ChatRepository.AddEveryoneLinksServerMembers | src/chat/ChatRepository.ts:78-85 | with `addEveryone`, exactly the server's members are linked, whatever `addTheseUsers` holds |
| ChatRepository.AddTheseUsersLinksListedMembers | src/chat/ChatRepository.ts:86-93 | otherwise, with a non-empty list, exactly the server members who are listed or are the creator are linked |
| ChatRepository.OtherwiseLinksCreatorOnly | src/chat/ChatRepository.ts:94-101 | otherwise exactly the creator is linked, with no membership condition |
| ChatRepository.MembersOutsideServerOnlyForCreatorOnly | src/chat/ChatRepository.ts:78-101 | only the creator-only rule can link a non-member of the server |
| ChatRepository.ChannelById | src/chat/ChatRepository.ts:62-64 | the row with that id, absent iff no row has it |
| ChatRepository.ChannelByFreshId | src/chat/ChatRepository.ts:102 | the row inserted under a fresh id is the one read back |
| ChatRepository.InsertChannel | src/chat/ChatRepository.ts:66-103 | one channel row under a fresh id with the defaults applied, the links of the chosen rule, and that row returned |
| ChatRepository.ChatRepository.CreateChannel | src/chat/ChatRepository.ts:66-103 | as `InsertChannel`, with the creator named by username |
| ChatRepository.SortByTime | src/chat/ChatRepository.ts:129 | a permutation of the messages, sorted by time ascending or descending |
| ChatRepository.Page | src/chat/ChatRepository.ts:129-130 | skips `offset` rows and keeps up to `quantity`, clamped to the table |
| ChatRepository.ChatRepository.GetOldestOrNewestMessages | src/chat/ChatRepository.ts:127-133 | the rows of the time-ordered table (descending when newest first) from position `offset` (default 0) on, `quantity` of them, or fewer when the table ends first, none past the end; so at most `quantity` sorted stored messages |
| ChatRepository.ChatRepository.GetOldestMessages | src/chat/ChatRepository.ts:135-137 | the oldest-first slice: positions `offset` (default 0) onward of the ascending order, `quantity` rows or up to the end of the table |
| ChatRepository.ChatRepository.GetNewestMessages | src/chat/ChatRepository.ts:139-141 | the newest-first slice: positions `offset` (default 0) onward of the descending order, `quantity` rows or up to the end of the table |
| ChatRepository.ChatRepository.MessagePage | src/chat/ChatRepository.ts:127-141 | a first page at least as large as the table holds every stored message exactly once, in time order |
| ChatService.ChatService.CreateServer | src/chat/ChatService.ts:13-17 | a rejected token creates nothing; otherwise the server is created for the token's username with the given, possibly absent, name |
| ChatService.ChatService.CreateChannel | src/chat/ChatService.ts:19-27 | a non-member of `params.serverId` gets 401 VALIDATION and nothing is created; otherwise the repository's channel is returned unchanged |
| ChatService.CreatorOnlyChannelHasTheCreator | src/chat/ChatRepository.ts:94-101 | under the creator-only rule an existing creator is linked to the new channel |
| AuthRepository.BlacklistStays | src/auth/AuthRepository.ts:23-33 | a blacklisted token stays blacklisted; the added token is blacklisted; other tokens are unaffected |
| AuthRepository.FirstUserNamedAppend | src/auth/AuthRepository.ts:11-21 | a user inserted under a new name is found by that name; other lookups are unchanged |
| AuthRepository.AuthRepository.GetByUser | src/auth/AuthRepository.ts:11-13 | the row with that username, absent iff none has it |
| AuthRepository.AuthRepository.CreateUser | src/auth/AuthRepository.ts:15-21 | one new row under a fresh id with `displayName` = username |
| AuthRepository.AuthRepository.BlacklistToken | src/auth/AuthRepository.ts:23-25 | the token is added to the blacklist and is blacklisted from then on |
| AuthRepository.AuthRepository.IsTokenBlacklisted | src/auth/AuthRepository.ts:27-33 | a token in no blacklist row is not blacklisted; the last token added is |
| AuthService.Login | src/auth/AuthService.ts:16-26 | unknown name: 401 'user not found'; wrong password: 401 'Incorrect password'; a matching password gives exactly the first row with that name |
| AuthService.GenerateToken | src/auth/AuthService.ts:43-51 | unknown name: 401 AUTH; otherwise the signature of the first row with that name (what `getOne` returns), without `pass` |
| AuthService.IsValidToken | src/auth/AuthService.ts:53-67 | empty token: null; a verification failure rejects; a verified token gives null when blacklisted, and otherwise the first row with the decoded username, absent (`undefined`) when there is none |
| AuthService.LoginAfterRegister | src/auth/AuthService.ts:16-37 | logging in after registering with the same name and password gives the new row |
| AuthService.LogoutInvalidates | src/auth/AuthService.ts:39-41 | after logout the token never names a user again |
| AuthService.ValidTokenNamesItsUser | src/auth/AuthService.ts:53-67 | a verified, non-blacklisted token names the user of its username |
| AuthService.AuthService.Register | src/auth/AuthService.ts:28-37 | a taken name gives 403 and writes nothing; otherwise exactly one new row, which a lookup by the name finds |
| AuthService.AuthService.Logout | src/auth/AuthService.ts:39-41 | the token is blacklisted |
| SocketController.MessageGuard | src/socket/SocketController.ts:188-200 | the first failing check in order: token 401, then `text`, `channelId`, `serverId` 400; none iff all are truthy |
| SocketController.DirectMessageGuard | src/socket/SocketController.ts:216-225 | token 401, then `text`, then `recipients` 400; an empty recipient list passes |
| SocketController.MissingKeysDiffer | src/socket/SocketController.ts:188-200 | the guard errors are pairwise distinct |
| SocketController.SocketController.constructor | src/socket/SocketController.ts:23-27 | a fresh empty socket table, and an emptied client table |
| SocketController.SocketController.OnConnect | src/socket/SocketController.ts:29-35 | the socket is added to the active table and its client rows recorded |
| SocketController.SocketController.OnDisconnecting | src/socket/SocketController.ts:49-56 | as written: the active-socket table is unchanged (the `remove` bug); the socket's client rows are deleted; with a client row, exactly one `'user disconnected'` with that user id per room the socket is in |
| SocketController.SocketController.OnDisconnectingIntended | src/socket/SocketController.ts:49-56 | with the corrected `remove`: the socket leaves the active table; client rows and notices as in `OnDisconnecting` |
| SocketController.SocketController.ReleaseClient | src/socket/SocketController.ts:50-55 | the socket's client rows are deleted and, with a client row, one notice per room, no room twice |
| SocketController.AnnounceToRooms | src/socket/SocketController.ts:53-55 | exactly one `'user disconnected'` with the user id per room, and no room twice |
| SocketController.SocketController.SetActiveServer | src/socket/SocketController.ts:66-71 | the socket's rooms become `ServerTransition` of the old rooms |
| SocketController.SocketController.SetActiveChannel | src/socket/SocketController.ts:73-84 | as written: the socket's rooms become `ChannelTransition` of the old rooms, so a `c#` room is never left |
| SocketController.SocketController.SetActiveChannelIntended | src/socket/SocketController.ts:73-84 | with the corrected leave guard: the rooms become `IntendedChannelTransition` of the old rooms |
| SocketController.SocketController.OnMessage | src/socket/SocketController.ts:185-212 | guard errors in order and nothing stored; then the service's errors in its order (rejected token, 401 not in the server, 401 not in the channel); on success the stored message, under a fresh id and with the token's user id, as a packet (content = text, no content type, service timestamp) to `server#<serverId>` and, as written, `channel#<channelId>` |
| SocketController.DeliverToEach | src/socket/SocketController.ts:245 | one delivery of the packet per client row, in row order |
| SocketController.DeliveriesReachTargets | src/socket/SocketController.ts:241-245 | one delivery per client row of the recipients and the sender reaches a socket of one of them, and every such socket |
| SocketController.SocketController.OnDirectMessage | src/socket/SocketController.ts:215-246 | guard errors in order; a failed service call propagates; otherwise one delivery per client row of a recipient or the sender, in row order, carrying the packet; the deliveries reach exactly the sockets of those users |
| SocketController.ConnectThenDisconnectKeepsSocket | src/socket/SocketController.ts:29-56 | as written, a socket that connected then disconnected is still in the active table, other entries unchanged |
| SocketController.ConnectThenDisconnectIntendedDropsSocket | src/socket/SocketController.ts:29-56 | with the corrected `remove`, a socket that connected then disconnected is gone from the active table, other entries unchanged |

## Left out

- The `inviteUsersToServer` handler (src/socket/SocketController.ts:248-295): it runs unordered concurrent callbacks.
- The pass-through handlers `getStartupData`, `createServer`, `createChannel`, `getOldestMessages`, `getNewestMessages`, `getLatestMessagesForChannel` and `getLastMessageForDmChannels` (src/socket/SocketController.ts:86-184): they only forward to the service or repository, and those operations are modelled there.
- The `login` and `logout` socket events (src/socket/SocketController.ts:58-64): they call repository methods that do not exist in the source.
- `SocketService.createServer` (src/socket/SocketService.ts:40-44): its repository method is not defined in the source. The chat service's `createServer` is modelled.
- `SocketRepository.SocketRepository.CreateChannel`: the socket repository's `createChannel` (called at src/socket/SocketService.ts:52) is not defined in the source. The model assumes it behaves as the chat repository's `createChannel`, with the creator named by user id instead of username.
- A corrected `message` handler: only its room is modelled, as `Rooms.IntendedMessageChannelRoom`; `OnMessage` targets the room as written.
- The store queries `getClient`, `clearClientTable`, `isUserInServer`, `isUserInChannel`, `sendMessage`, `getUserServers`, `getUserChannels`, `getUsersInServers` and `getSocketIdsFromUserIds`: their SQL is not in the source. Their meaning follows their names and call sites, over the in-memory tables.
- `getSocketIdsFromUserIds`: assumed to build its `IN` list with `parameterizeArrayForQuery`, so an empty id list gives no result.
- `sendDirectMessage`, the direct-message channel lookup: its outcome is an argument of `OnDirectMessage`.
- Socket.IO delivery: emission, de-duplication across `io.to(a).to(b)`, and the implicit own-id room. A broadcast is its set of rooms; a direct message is its list of socket deliveries.
- MySQL type coercion: `addClient` compares the numeric `userId` with `username`. The model compares the id's decimal text.
- The `u.username IN ?` list (src/chat/ChatRepository.ts:91) is modelled as membership in the list. How the driver expands an array without parentheses is not modelled.
- A link row whose user id is NULL, for example a server created by an unknown username, is modelled as no row. No membership query can match such a row.
- `ChatRepository.ChatRepository.GetOldestOrNewestMessages`: weaker than the source in one respect. Rows with equal times come in one fixed order, where SQL leaves that order open. Times are integers; the schema stores them as text.
- `Timespan.Timespan`: `Math.floor` of a fractional `ms` result and `NaN` are not modelled, since all values are integers.
- `ChatRepository.DefaultServerName`: upper-cases ASCII letters only, not the locale rules of `toLocaleUpperCase`.
- `AuthService.AuthService.Register`: takes the password's bcrypt hash as an argument instead of the password. The hash is salted and random, so it is not a function of the password.
- `bcrypt.compare`, the token signer and verifier, the `ms` parser and `Date.now`: these are parameters.
- `isValidToken`: a verification failure rejects instead of returning null, because the verifier throws. Its `!valid` branch cannot be reached and is not modelled.
- `getCookieFromRequest` (src/helpers/jwt.ts:29-32) always returns `'cookie'`, so the `!token` guards never fire. The model takes the cookie as the `token` argument and keeps the guards.
- The `ErrorTypes.AUTH` tag: neither enum in the source declares it, so at run time it is `undefined`. The model writes it as `Auth`.
- `ChatRepository.ChatRepository.CreateServer` and `ChatRepository.ChatRepository.IsUserInServer`: the scalar subquery `(SELECT id FROM user WHERE username = ?)` (src/chat/ChatRepository.ts:45, 52, 108) fails in MySQL when two users share a name, since the user table has no unique key on `username`. The model (`Tables.UserIdByName`) takes the first such user instead of failing. `register` refuses a taken name, so duplicates arise only from concurrent registrations.
- `ChatRepository.createMessage` (src/chat/ChatRepository.ts:115-122): its SQL is malformed.
- `getUserServers`, `getUserChannels` and `getUser` of the chat repository (src/chat/ChatRepository.ts:12-37): they are not part of this model.
- HTTP routing, controllers, middleware, configuration loading, the MySQL pool and schema seeding: they are not part of this model.

## Findings

| source | as written | input that shows it | evidently intended | confidence | as-written member | corrected member |
|---|---|---|---|---|---|---|
| src/socket/ActiveSockets.ts:11-13 | `_.omit(this.sockets, id)` builds a new object and drops it, so `remove` changes nothing | `add(s)` then `remove(s.id)`: `s.id` is still a key | `this.sockets = _.omit(this.sockets, id)` | high, not executed | ActiveSockets.AddThenRemoveKeepsSocket | ActiveSockets.AddThenRemoveIntendedDropsSocket |
| src/socket/SocketController.ts:77-83 | the leave guard `(slice(0,2) !== 'c#' \|\| slice(0,2) === 'd#')` never leaves a `c#` room | `setActiveChannel({newChannel:'c#1', oldChannel:''})` then `({newChannel:'c#2', oldChannel:'c#1'})`: the socket is in `channel#c#1` and `channel#c#2` | leave when the old key starts with `c#` or `d#`, mirroring the join guard | medium, not executed | Rooms.ChannelRoomsAccumulate | Rooms.IntendedKeepsOneChannelRoom |
| src/socket/SocketController.ts:211 | the message goes to `channel#${channelId}` with a numeric id, while channel rooms are `channel#c#<id>` | `message({text:'hi', channelId:5, serverId:1})` targets `channel#5`, a room `setActiveChannel` never joins | target `channel#c#${channelId}` | medium, not executed | Rooms.MessageRoomNeverJoined | Rooms.IntendedMessageRoomIsJoined |
