/** `src/chat/ChatRepository.ts`: creating servers and channels, the server
    membership test, and the oldest/newest message pages, over the in-memory
    chat database. */
module ChatRepository {
  import opened Common
  import opened Types
  import opened Tables

  // ---------------------------------------------------------------------------
  // Server naming

  /** ASCII stand-in for `toLocaleUpperCase` on one character. */
  function UpperAscii(c: char): (u: char)
    ensures 'a' <= c <= 'z' ==> 'A' <= u <= 'Z' && u as int == c as int - 32
    ensures !('a' <= c <= 'z') ==> u == c
  {
    if 'a' <= c <= 'z' then (c as int - 32) as char else c
  }

  /** `username.slice(0, 1).toLocaleUpperCase() + username.slice(1)` */
  function CapitalizeFirst(username: string): string {
    if username == [] then [] else [UpperAscii(username[0])] + username[1..]
  }

  /** `${usernameWithFirstLetterCapitalized}'s Server` */
  function DefaultServerName(username: string): string {
    CapitalizeFirst(username) + "'s Server"
  }

  /** `inputServerName ?? default`: only an absent name is replaced. */
  function ServerName(username: string, inputServerName: Option<string>): string {
    inputServerName.GetOr(DefaultServerName(username))
  }

  /** The default name is the username with its first letter upper-cased,
      followed by `'s Server`. */
  lemma DefaultServerNameShape(username: string)
    ensures |DefaultServerName(username)| == |username| + 9
    ensures DefaultServerName(username)[|username|..] == "'s Server"
    ensures username != [] ==>
      DefaultServerName(username)[0] == UpperAscii(username[0]) &&
      DefaultServerName(username)[1..|username|] == username[1..]
  {
  }

  /** A supplied name, the empty string included, is used as it is. */
  lemma SuppliedServerNameVerbatim(username: string, name: string)
    ensures ServerName(username, Some(name)) == name
    ensures ServerName(username, None) == DefaultServerName(username)
  {
  }

  // ---------------------------------------------------------------------------
  // Channel creation

  /** Who created a channel.  This repository names the creator by username;
      the socket store names the creator by user id. */
  datatype Creator = ByName(username: string) | ById(userId: UserId)

  predicate IsCreator(u: User, creator: Creator) {
    match creator
    case ByName(name) => u.username == name
    case ById(id) => u.id == id
  }

  /** Which of the three link statements of `createChannel` runs. */
  datatype LinkRule = Everyone | TheseUsers(names: seq<string>) | CreatorOnly

  /** `if (addEveryone) … else if (addTheseUsers?.length) … else …` */
  function LinkRuleOf(params: CreateChannelParams): LinkRule {
    if params.addEveryone == Some(true) then Everyone
    else if params.addTheseUsers.Some? && |params.addTheseUsers.value| > 0 then TheseUsers(params.addTheseUsers.value)
    else CreatorOnly
  }

  /** The users the link statement of `rule` selects:
      - `Everyone`: every user linked to the server;
      - `TheseUsers`: server members named in the list or the creator;
      - `CreatorOnly`: the creator, whether or not a server member. */
  function NewChannelMembers(users: seq<User>, serverUsers: set<(ServerId, UserId)>, serverId: ServerId,
                             rule: LinkRule, creator: Creator): set<UserId>
  {
    match rule
    case Everyone =>
      set u | u in users && (serverId, u.id) in serverUsers :: u.id
    case TheseUsers(names) =>
      set u | u in users && (serverId, u.id) in serverUsers && (u.username in names || IsCreator(u, creator)) :: u.id
    case CreatorOnly =>
      set u | u in users && IsCreator(u, creator) :: u.id
  }

  /** `addEveryone` wins over `addTheseUsers`, and then exactly the server's
      members are linked. */
  lemma AddEveryoneLinksServerMembers(users: seq<User>, serverUsers: set<(ServerId, UserId)>,
                                      params: CreateChannelParams, creator: Creator, id: UserId)
    requires params.addEveryone == Some(true)
    ensures id in NewChannelMembers(users, serverUsers, params.serverId, LinkRuleOf(params), creator) <==>
      exists u :: u in users && u.id == id && (params.serverId, id) in serverUsers
  {
  }

  /** With a non-empty `addTheseUsers` (and no `addEveryone`), a user is
      linked exactly when a server member who is listed or is the creator. */
  lemma AddTheseUsersLinksListedMembers(users: seq<User>, serverUsers: set<(ServerId, UserId)>,
                                        params: CreateChannelParams, creator: Creator, id: UserId)
    requires params.addEveryone != Some(true)
    requires params.addTheseUsers.Some? && |params.addTheseUsers.value| > 0
    ensures id in NewChannelMembers(users, serverUsers, params.serverId, LinkRuleOf(params), creator) <==>
      exists u :: u in users && u.id == id && (params.serverId, id) in serverUsers &&
        (u.username in params.addTheseUsers.value || IsCreator(u, creator))
  {
  }

  /** Otherwise only the creator is linked, with no server-membership test. */
  lemma OtherwiseLinksCreatorOnly(users: seq<User>, serverUsers: set<(ServerId, UserId)>,
                                  params: CreateChannelParams, creator: Creator, id: UserId)
    requires params.addEveryone != Some(true)
    requires params.addTheseUsers.None? || |params.addTheseUsers.value| == 0
    ensures id in NewChannelMembers(users, serverUsers, params.serverId, LinkRuleOf(params), creator) <==>
      exists u :: u in users && u.id == id && IsCreator(u, creator)
  {
  }

  /** Only the `CreatorOnly` rule can link a user who is not in the server. */
  lemma MembersOutsideServerOnlyForCreatorOnly(users: seq<User>, serverUsers: set<(ServerId, UserId)>,
                                               serverId: ServerId, rule: LinkRule, creator: Creator, id: UserId)
    requires id in NewChannelMembers(users, serverUsers, serverId, rule, creator)
    requires (serverId, id) !in serverUsers
    ensures rule == CreatorOnly
  {
  }

  /** The row the channel INSERT writes: absent options take their defaults
      (`description` from configuration, `isPrivate` and `autoAddNewMembers`
      false). */
  function NewChannelRow(id: ChannelId, params: CreateChannelParams, defaultDescription: string): (c: ChatChannel)
    ensures c.id == id && c.name == params.channelName && c.serverId == params.serverId
    ensures c.description == (if params.description.Some? then params.description.value else defaultDescription)
    ensures c.isPrivate == (params.isPrivate == Some(true))
    ensures c.autoAddNewMembers == (params.autoAddNewMembers == Some(true))
  {
    ChatChannel(id, params.channelName, params.serverId, params.description.GetOr(defaultDescription),
                params.isPrivate.GetOr(false), params.autoAddNewMembers.GetOr(false))
  }

  /** `SELECT * FROM channel WHERE id = ?` through `getOne`. */
  function ChannelById(channels: seq<ChatChannel>, id: ChannelId): (r: Option<ChatChannel>)
    ensures r.Some? ==> r.value in channels && r.value.id == id
    ensures r.None? <==> forall i :: 0 <= i < |channels| ==> channels[i].id != id
  {
    if channels == [] then None
    else if channels[0].id == id then Some(channels[0])
    else ChannelById(channels[1..], id)
  }

  /** A row appended under a fresh id is the one a lookup by that id finds. */
  lemma {:induction false} ChannelByFreshId(channels: seq<ChatChannel>, c: ChatChannel)
    requires forall i :: 0 <= i < |channels| ==> channels[i].id != c.id
    ensures ChannelById(channels + [c], c.id) == Some(c)
  {
    if channels != [] {
      assert (channels + [c])[1..] == channels[1..] + [c];
      ChannelByFreshId(channels[1..], c);
    }
  }

  /** The INSERT of `createChannel`, then the link statement of its rule, then
      the lookup of the new row.  Shared by both repositories, which differ
      only in how they name the creator. */
  method InsertChannel(db: Database, defaultDescription: string, creator: Creator, params: CreateChannelParams)
    returns (channel: ChatChannel)
    modifies db`channels, db`channelUsers
    ensures channel == NewChannelRow(NextId(IdsOf(old(db.channels), (c: ChatChannel) => c.id)), params, defaultDescription)
    ensures forall i :: 0 <= i < |old(db.channels)| ==> old(db.channels)[i].id != channel.id
    ensures db.channels == old(db.channels) + [channel]
    ensures db.channelUsers == old(db.channelUsers) +
      set id | id in NewChannelMembers(db.users, db.serverUsers, params.serverId, LinkRuleOf(params), creator) :: (channel.id, id)
  {
    var insertId := NextId(IdsOf(db.channels, (c: ChatChannel) => c.id));
    var row := NewChannelRow(insertId, params, defaultDescription);
    ChannelByFreshId(db.channels, row);
    db.channels := db.channels + [row];
    var members := NewChannelMembers(db.users, db.serverUsers, params.serverId, LinkRuleOf(params), creator);
    db.channelUsers := db.channelUsers + set id | id in members :: (insertId, id);
    channel := ChannelById(db.channels, insertId).value;
  }

  // ---------------------------------------------------------------------------
  // Message pages

  /** `ORDER BY time ASC` (`newestFirst` false) or `DESC` (true). */
  predicate InTimeOrder(a: MessageRow, b: MessageRow, newestFirst: bool) {
    if newestFirst then a.time >= b.time else a.time <= b.time
  }

  ghost predicate SortedByTime(s: seq<MessageRow>, newestFirst: bool) {
    forall i, j :: 0 <= i < j < |s| ==> InTimeOrder(s[i], s[j], newestFirst)
  }

  /** A row that comes no later than every row of a sorted sequence can be
      put in front of it. */
  lemma PrependSorted(x: MessageRow, s: seq<MessageRow>, newestFirst: bool)
    requires SortedByTime(s, newestFirst)
    requires forall k :: 0 <= k < |s| ==> InTimeOrder(x, s[k], newestFirst)
    ensures SortedByTime([x] + s, newestFirst)
  {
    var r := [x] + s;
    forall i, j | 0 <= i < j < |r| ensures InTimeOrder(r[i], r[j], newestFirst) {
      if i > 0 {
        assert r[i] == s[i - 1] && r[j] == s[j - 1];
      } else {
        assert r[j] == s[j - 1];
      }
    }
  }

  /** When `m` goes after the head of a sorted `s`, the head still comes
      first among `m` and the rest of `s`. */
  lemma HeadPrecedesInsertion(m: MessageRow, s: seq<MessageRow>, rest: seq<MessageRow>, newestFirst: bool)
    requires s != [] && SortedByTime(s, newestFirst)
    requires !InTimeOrder(m, s[0], newestFirst)
    requires multiset(rest) == multiset(s[1..]) + multiset{m}
    ensures forall k :: 0 <= k < |rest| ==> InTimeOrder(s[0], rest[k], newestFirst)
  {
    forall k | 0 <= k < |rest| ensures InTimeOrder(s[0], rest[k], newestFirst) {
      assert rest[k] in multiset(rest);
      if rest[k] != m {
        assert rest[k] in multiset(s[1..]);
        var j :| 0 <= j < |s[1..]| && s[1..][j] == rest[k];
        assert s[j + 1] == rest[k];
      }
    }
  }

  function InsertByTime(m: MessageRow, s: seq<MessageRow>, newestFirst: bool): (r: seq<MessageRow>)
    requires SortedByTime(s, newestFirst)
    ensures multiset(r) == multiset(s) + multiset{m}
    ensures SortedByTime(r, newestFirst)
  {
    if s == [] then [m]
    else if InTimeOrder(m, s[0], newestFirst) then
      assert forall j :: 0 <= j < |s| ==> InTimeOrder(m, s[j], newestFirst);
      PrependSorted(m, s, newestFirst);
      [m] + s
    else
      var rest := InsertByTime(m, s[1..], newestFirst);
      HeadPrecedesInsertion(m, s, rest, newestFirst);
      PrependSorted(s[0], rest, newestFirst);
      assert s == [s[0]] + s[1..];
      [s[0]] + rest
  }

  /** The table in the order `ORDER BY time` gives: a permutation of the
      table, sorted by time.  Rows with equal times keep one fixed order. */
  function SortByTime(s: seq<MessageRow>, newestFirst: bool): (r: seq<MessageRow>)
    ensures multiset(r) == multiset(s)
    ensures |r| == |s|
    ensures SortedByTime(r, newestFirst)
  {
    if s == [] then []
    else
      assert s == [s[0]] + s[1..];
      InsertByTime(s[0], SortByTime(s[1..], newestFirst), newestFirst)
  }

  /** `LIMIT offset, quantity`: skip `offset` rows, take at most `quantity`. */
  function Page(s: seq<MessageRow>, offset: nat, quantity: nat): (r: seq<MessageRow>)
    ensures |r| == if offset >= |s| then 0 else if offset + quantity <= |s| then quantity else |s| - offset
    ensures forall k :: 0 <= k < |r| ==> r[k] == s[offset + k]
  {
    if offset >= |s| then []
    else if offset + quantity <= |s| then s[offset..offset + quantity]
    else s[offset..]
  }

  // ---------------------------------------------------------------------------
  // The repository

  class ChatRepository {
    const db: Database
    /** `config.chat.default.channel.description` */
    const defaultChannelDescription: string

    constructor(db: Database, defaultChannelDescription: string)
      ensures this.db == db && this.defaultChannelDescription == defaultChannelDescription
    {
      this.db := db;
      this.defaultChannelDescription := defaultChannelDescription;
    }

    /** `createServer`: insert the server owned by the creator's id (NULL when
        no user has that name), link the creator to it, and return the row
        read back by its new id. */
    method CreateServer(username: string, inputServerName: Option<string>) returns (server: ChatServer)
      modifies db`servers, db`serverUsers
      ensures server.name == ServerName(username, inputServerName)
      ensures server.ownerUserId == UserIdByName(db.users, username)
      ensures forall i :: 0 <= i < |old(db.servers)| ==> old(db.servers)[i].id != server.id
      ensures db.servers == old(db.servers) + [server]
      ensures db.serverUsers == old(db.serverUsers) +
        (if server.ownerUserId.Some? then {(server.id, server.ownerUserId.value)} else {})
      ensures UserIdByName(db.users, username).Some? ==> IsUserInServer(username, server.id)
    {
      var insertId := NextId(IdsOf(db.servers, (s: ChatServer) => s.id));
      var ownerId := UserIdByName(db.users, username);
      server := ChatServer(insertId, ServerName(username, inputServerName), ownerId);
      db.servers := db.servers + [server];
      // A NULL userId makes a link row no membership query can match.
      if ownerId.Some? {
        db.serverUsers := db.serverUsers + {(insertId, ownerId.value)};
      }
    }

    /** `createChannel(username, params)` */
    method CreateChannel(username: string, params: CreateChannelParams) returns (channel: ChatChannel)
      modifies db`channels, db`channelUsers
      ensures channel == NewChannelRow(channel.id, params, defaultChannelDescription)
      ensures forall i :: 0 <= i < |old(db.channels)| ==> old(db.channels)[i].id != channel.id
      ensures db.channels == old(db.channels) + [channel]
      ensures db.channelUsers == old(db.channelUsers) +
        set id | id in NewChannelMembers(db.users, db.serverUsers, params.serverId, LinkRuleOf(params), ByName(username)) :: (channel.id, id)
    {
      channel := InsertChannel(db, defaultChannelDescription, ByName(username), params);
    }

    /** `isUserInServer`: a link row joins the server to the id of the user
        with that name. */
    predicate IsUserInServer(username: string, serverId: ServerId)
      reads db`users, db`serverUsers
      ensures (forall i :: 0 <= i < |db.users| ==> db.users[i].username != username) ==> !IsUserInServer(username, serverId)
      ensures IsUserInServer(username, serverId) ==>
        exists i :: 0 <= i < |db.users| && db.users[i].username == username && (serverId, db.users[i].id) in db.serverUsers
      ensures (exists i :: 0 <= i < |db.users| && db.users[i].username == username) &&
              (forall i :: 0 <= i < |db.users| && db.users[i].username == username ==> (serverId, db.users[i].id) in db.serverUsers) ==>
        IsUserInServer(username, serverId)
    {
      var id := UserIdByName(db.users, username);
      id.Some? && (serverId, id.value) in db.serverUsers
    }

    /** `getOldestOrNewestMessages(quantity, offset, getNewestInstead)` */
    function GetOldestOrNewestMessages(quantity: nat, offset: Option<nat>, newestFirst: bool): (r: seq<MessageRow>)
      reads db`messages
      ensures |r| <= quantity
      ensures SortedByTime(r, newestFirst)
      ensures forall k :: 0 <= k < |r| ==> r[k] in db.messages
      ensures |r| == if offset.GetOr(0) >= |db.messages| then 0
        else if offset.GetOr(0) + quantity <= |db.messages| then quantity else |db.messages| - offset.GetOr(0)
      ensures forall k :: 0 <= k < |r| ==> r[k] == SortByTime(db.messages, newestFirst)[offset.GetOr(0) + k]
    {
      var sorted := SortByTime(db.messages, newestFirst);
      var page := Page(sorted, offset.GetOr(0), quantity);
      assert forall k :: 0 <= k < |page| ==> page[k] in db.messages by {
        forall k | 0 <= k < |page| ensures page[k] in db.messages {
          assert sorted[offset.GetOr(0) + k] in multiset(sorted);
        }
      }
      assert SortedByTime(page, newestFirst) by {
        forall i, j | 0 <= i < j < |page| ensures InTimeOrder(page[i], page[j], newestFirst) {
          assert page[i] == sorted[offset.GetOr(0) + i] && page[j] == sorted[offset.GetOr(0) + j];
        }
      }
      page
    }

    /** `getOldestMessages(quantity, offset)`: oldest first. */
    function GetOldestMessages(quantity: nat, offset: Option<nat>): (r: seq<MessageRow>)
      reads db`messages
      ensures |r| <= quantity && SortedByTime(r, false)
      ensures forall k :: 0 <= k < |r| ==> r[k] in db.messages
      ensures |r| == if offset.GetOr(0) >= |db.messages| then 0
        else if offset.GetOr(0) + quantity <= |db.messages| then quantity else |db.messages| - offset.GetOr(0)
      ensures forall k :: 0 <= k < |r| ==> r[k] == SortByTime(db.messages, false)[offset.GetOr(0) + k]
    {
      GetOldestOrNewestMessages(quantity, offset, false)
    }

    /** `getNewestMessages(quantity, offset)`: newest first. */
    function GetNewestMessages(quantity: nat, offset: Option<nat>): (r: seq<MessageRow>)
      reads db`messages
      ensures |r| <= quantity && SortedByTime(r, true)
      ensures forall k :: 0 <= k < |r| ==> r[k] in db.messages
      ensures |r| == if offset.GetOr(0) >= |db.messages| then 0
        else if offset.GetOr(0) + quantity <= |db.messages| then quantity else |db.messages| - offset.GetOr(0)
      ensures forall k :: 0 <= k < |r| ==> r[k] == SortByTime(db.messages, true)[offset.GetOr(0) + k]
    {
      GetOldestOrNewestMessages(quantity, offset, true)
    }

    /** A first page at least as large as the table holds every stored
        message exactly once, in time order. */
    lemma MessagePage(quantity: nat, newestFirst: bool)
      requires quantity >= |db.messages|
      ensures multiset(GetOldestOrNewestMessages(quantity, None, newestFirst)) == multiset(db.messages)
      ensures SortedByTime(GetOldestOrNewestMessages(quantity, None, newestFirst), newestFirst)
    {
      var sorted := SortByTime(db.messages, newestFirst);
      var page := GetOldestOrNewestMessages(quantity, None, newestFirst);
      assert page == sorted;
    }
  }
}
