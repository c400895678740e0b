/** The chat database the repositories query, held in memory: one field per
    table, the link tables as sets of id pairs.  Row order in a sequence is
    insertion order, which is the order a single-row query (`getOne`) sees. */
module Tables {
  import opened Common
  import opened Types

  class Database {
    var users: seq<User>
    var clients: seq<ClientRow>
    var servers: seq<ChatServer>
    /** `link_server_user`, as (serverId, userId) pairs. */
    var serverUsers: set<(ServerId, UserId)>
    var channels: seq<ChatChannel>
    /** `link_channel_user`, as (channelId, userId) pairs. */
    var channelUsers: set<(ChannelId, UserId)>
    var messages: seq<MessageRow>
    var blacklist: seq<BlacklistRow>

    constructor()
      ensures users == [] && clients == [] && servers == [] && serverUsers == {}
      ensures channels == [] && channelUsers == {} && messages == [] && blacklist == []
    {
      users, clients, servers, serverUsers := [], [], [], {};
      channels, channelUsers, messages, blacklist := [], {}, [], [];
    }
  }

  /** The id an AUTO_INCREMENT column gives a new row: above every id the
      table already holds. */
  function NextId(ids: seq<int>): (r: int)
    ensures r >= 1
    ensures forall i :: 0 <= i < |ids| ==> ids[i] < r
  {
    if ids == [] then 1
    else
      var rest := NextId(ids[1..]);
      if ids[0] >= rest then ids[0] + 1 else rest
  }

  /** The id column of a table, in row order. */
  function IdsOf<T>(rows: seq<T>, id: T -> int): (ids: seq<int>)
    ensures |ids| == |rows| && forall i :: 0 <= i < |rows| ==> ids[i] == id(rows[i])
  {
    seq(|rows|, i requires 0 <= i < |rows| => id(rows[i]))
  }

  /** The first user row with that username: what `getOne` returns for
      `SELECT * FROM user WHERE username = ?`. */
  function FirstUserNamed(users: seq<User>, username: string): (r: Option<User>)
    ensures r.None? <==> forall i :: 0 <= i < |users| ==> users[i].username != username
    ensures r.Some? ==> exists i :: 0 <= i < |users| && users[i] == r.value
    ensures r.Some? ==> r.value.username == username
    ensures r.Some? ==> (exists i :: 0 <= i < |users| && users[i] == r.value &&
                                     (forall j :: 0 <= j < i ==> users[j].username != username))
  {
    if users == [] then None
    else if users[0].username == username then Some(users[0])
    else
      var rest := FirstUserNamed(users[1..], username);
      assert rest.Some? ==> (exists i :: 0 <= i < |users| && users[i] == rest.value &&
                                         (forall j :: 0 <= j < i ==> users[j].username != username)) by {
        if rest.Some? {
          var k :| 0 <= k < |users[1..]| && users[1..][k] == rest.value &&
            forall j :: 0 <= j < k ==> users[1..][j].username != username;
          assert users[k + 1] == rest.value;
          assert forall j :: 0 <= j < k + 1 ==> users[j].username != username by {
            forall j | 0 <= j < k + 1 ensures users[j].username != username {
              if j > 0 { assert users[j] == users[1..][j - 1]; }
            }
          }
        }
      }
      rest
  }

  /** The scalar subquery `(SELECT id FROM user WHERE username = ?)`: the id
      of the first user with that name, or NULL.  MySQL fails the subquery
      when several users share the name; the model takes the first. */
  function UserIdByName(users: seq<User>, username: string): (r: Option<UserId>)
    ensures r.None? <==> forall i :: 0 <= i < |users| ==> users[i].username != username
    ensures r.Some? ==> exists i :: 0 <= i < |users| && users[i].username == username && users[i].id == r.value
  {
    match FirstUserNamed(users, username)
    case Some(u) => Some(u.id)
    case None => None
  }
}
