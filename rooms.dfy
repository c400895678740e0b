/** Room keys and the room transitions of the `setActiveServer` and
    `setActiveChannel` handlers (`src/socket/SocketController.ts`).  A room is
    the plain string Socket.IO routes by: `server#<id>` for a server,
    `channel#<key>` for a channel, where the client's channel key carries a
    `c#` (public channel) or `d#` (direct message) prefix. */
module Rooms {
  import opened Common

  type Room = string

  /** The part of a Socket.IO socket the handlers touch: its id and the set of
      rooms it has joined. */
  class Socket {
    const id: SocketId
    var rooms: set<Room>

    constructor(id: SocketId)
      ensures this.id == id && rooms == {}
    {
      this.id := id;
      rooms := {};
    }

    /** `socket.join(room)`: set insertion, so joining twice is joining once. */
    method Join(room: Room)
      modifies this
      ensures rooms == old(rooms) + {room}
    {
      rooms := rooms + {room};
    }

    /** `socket.leave(room)`: a no-op for a room the socket is not in. */
    method Leave(room: Room)
      modifies this
      ensures rooms == old(rooms) - {room}
    {
      rooms := rooms - {room};
    }
  }

  /** `server#${serverId}` */
  function ServerRoom(serverId: int): Room {
    "server#" + DecimalText(serverId)
  }

  /** `channel#${key}` for a channel key sent by the client. */
  function ChannelRoom(key: string): Room {
    "channel#" + key
  }

  lemma ServerRoomInjective(a: int, b: int)
    ensures ServerRoom(a) == ServerRoom(b) <==> a == b
  {
    if ServerRoom(a) == ServerRoom(b) {
      assert DecimalText(a) == ServerRoom(a)[7..];
      assert DecimalText(b) == ServerRoom(b)[7..];
      DecimalTextInjective(a, b);
    }
  }

  lemma ChannelRoomInjective(a: string, b: string)
    ensures ChannelRoom(a) == ChannelRoom(b) <==> a == b
  {
    if ChannelRoom(a) == ChannelRoom(b) {
      assert a == ChannelRoom(a)[8..];
      assert b == ChannelRoom(b)[8..];
    }
  }

  // ---------------------------------------------------------------------------
  // setActiveServer

  /** `oldServer && oldServer !== newServer`: an absent (`None`) or zero
      `oldServer` is falsy. */
  predicate LeavesOldServer(newServer: int, oldServer: Option<int>) {
    oldServer.Some? && oldServer.value != 0 && oldServer.value != newServer
  }

  /** The rooms after `setActiveServer`: join `server#newServer`, then leave
      `server#oldServer` when the guard holds. */
  function ServerTransition(rooms: set<Room>, newServer: int, oldServer: Option<int>): (r: set<Room>)
    ensures r <= rooms + {ServerRoom(newServer)}
    ensures forall x :: x in rooms && (LeavesOldServer(newServer, oldServer) ==> x != ServerRoom(oldServer.value)) ==> x in r
  {
    var joined := rooms + {ServerRoom(newServer)};
    if LeavesOldServer(newServer, oldServer) then joined - {ServerRoom(oldServer.value)} else joined
  }

  /** The socket always ends in the new server's room; the old server's room
      is gone exactly when the guard holds; no other room changes. */
  lemma ServerTransitionEffect(rooms: set<Room>, newServer: int, oldServer: Option<int>)
    ensures ServerRoom(newServer) in ServerTransition(rooms, newServer, oldServer)
    ensures LeavesOldServer(newServer, oldServer) ==>
      ServerRoom(oldServer.value) !in ServerTransition(rooms, newServer, oldServer)
    ensures forall r :: r != ServerRoom(newServer) &&
                        (LeavesOldServer(newServer, oldServer) ==> r != ServerRoom(oldServer.value)) ==>
                        (r in ServerTransition(rooms, newServer, oldServer) <==> r in rooms)
  {
    if LeavesOldServer(newServer, oldServer) {
      ServerRoomInjective(newServer, oldServer.value);
    }
  }

  /** Re-selecting the current server leaves the socket in that server's room
      and changes nothing else. */
  lemma SameServerOnlyJoins(rooms: set<Room>, server: int)
    ensures ServerTransition(rooms, server, Some(server)) == rooms + {ServerRoom(server)}
  {
  }

  /** Replaying a `setActiveServer` event has no further effect. */
  lemma ServerTransitionIdempotent(rooms: set<Room>, newServer: int, oldServer: Option<int>)
    ensures ServerTransition(ServerTransition(rooms, newServer, oldServer), newServer, oldServer)
         == ServerTransition(rooms, newServer, oldServer)
  {
    var once := ServerTransition(rooms, newServer, oldServer);
    var twice := ServerTransition(once, newServer, oldServer);
    ServerTransitionEffect(rooms, newServer, oldServer);
    ServerTransitionEffect(once, newServer, oldServer);
    assert forall r :: r in twice <==> r in once;
  }

  // ---------------------------------------------------------------------------
  // setActiveChannel, as written

  /** `key.slice(0, 2) === 'c#' || key.slice(0, 2) === 'd#'` */
  predicate IsChannelKey(key: string) {
    Slice2(key) == "c#" || Slice2(key) == "d#"
  }

  /** The leave guard of the source:
      `oldChannel && oldChannel !== newChannel &&
       (oldChannel.slice(0, 2) !== 'c#' || oldChannel.slice(0, 2) === 'd#')`. */
  predicate LeavesOldChannel(newChannel: string, oldChannel: string) {
    oldChannel != "" && oldChannel != newChannel &&
    (Slice2(oldChannel) != "c#" || Slice2(oldChannel) == "d#")
  }

  /** The rooms after `setActiveChannel` as written: join `channel#newChannel`
      for a `c#`/`d#` key, then leave `channel#oldChannel` when the guard
      holds. */
  function ChannelTransition(rooms: set<Room>, newChannel: string, oldChannel: string): (r: set<Room>)
    ensures r <= rooms + {ChannelRoom(newChannel)}
    ensures forall x :: x in rooms && x != ChannelRoom(oldChannel) ==> x in r
  {
    var joined := if IsChannelKey(newChannel) then rooms + {ChannelRoom(newChannel)} else rooms;
    if LeavesOldChannel(newChannel, oldChannel) then joined - {ChannelRoom(oldChannel)} else joined
  }

  /** The new channel's room is joined exactly for a `c#`/`d#` key; the old
      one is left exactly when the guard holds; no other room changes. */
  lemma ChannelTransitionEffect(rooms: set<Room>, newChannel: string, oldChannel: string)
    ensures IsChannelKey(newChannel) ==> ChannelRoom(newChannel) in ChannelTransition(rooms, newChannel, oldChannel)
    ensures !IsChannelKey(newChannel) ==>
      (ChannelRoom(newChannel) in ChannelTransition(rooms, newChannel, oldChannel) <==> ChannelRoom(newChannel) in rooms)
    ensures LeavesOldChannel(newChannel, oldChannel) ==>
      ChannelRoom(oldChannel) !in ChannelTransition(rooms, newChannel, oldChannel)
    ensures !LeavesOldChannel(newChannel, oldChannel) && oldChannel != newChannel ==>
      (ChannelRoom(oldChannel) in ChannelTransition(rooms, newChannel, oldChannel) <==> ChannelRoom(oldChannel) in rooms)
    ensures forall r :: r != ChannelRoom(newChannel) && r != ChannelRoom(oldChannel) ==>
      (r in ChannelTransition(rooms, newChannel, oldChannel) <==> r in rooms)
  {
    ChannelRoomInjective(newChannel, oldChannel);
  }

  /** The leave guard holds exactly for a non-empty, different old key that
      does not start with `c#`: its `=== 'd#'` disjunct adds nothing. */
  lemma LeaveGuardIgnoresDmPrefix(newChannel: string, oldChannel: string)
    ensures LeavesOldChannel(newChannel, oldChannel) <==>
      (oldChannel != "" && oldChannel != newChannel && Slice2(oldChannel) != "c#")
  {
  }

  /** As written, moving from public channel `c#1` to public channel `c#2`
      keeps the socket in both channel rooms. */
  lemma ChannelRoomsAccumulate()
    ensures ChannelTransition(ChannelTransition({}, "c#1", ""), "c#2", "c#1")
         == {ChannelRoom("c#1"), ChannelRoom("c#2")}
  {
    assert Slice2("c#1") == "c#";
    assert Slice2("c#2") == "c#";
    assert ChannelTransition({}, "c#1", "") == {ChannelRoom("c#1")};
  }

  // ---------------------------------------------------------------------------
  // setActiveChannel, as evidently intended

  /** The leave guard mirroring the join guard: leave a `c#` or `d#` room. */
  predicate IntendedLeavesOldChannel(newChannel: string, oldChannel: string) {
    oldChannel != "" && oldChannel != newChannel && IsChannelKey(oldChannel)
  }

  /** The rooms after `setActiveChannel` with the intended leave guard. */
  function IntendedChannelTransition(rooms: set<Room>, newChannel: string, oldChannel: string): (r: set<Room>)
    ensures r <= rooms + {ChannelRoom(newChannel)}
    ensures forall x :: x in rooms && x != ChannelRoom(oldChannel) ==> x in r
    ensures !IsChannelKey(oldChannel) ==> rooms <= r
  {
    var joined := if IsChannelKey(newChannel) then rooms + {ChannelRoom(newChannel)} else rooms;
    if IntendedLeavesOldChannel(newChannel, oldChannel) then joined - {ChannelRoom(oldChannel)} else joined
  }

  /** The channel rooms a socket is in: rooms `channel#<key>` whose key is a
      `c#`/`d#` key. */
  ghost function ChannelRoomsOf(rooms: set<Room>): set<Room> {
    set r | r in rooms && |r| >= 8 && r[..8] == "channel#" && IsChannelKey(r[8..])
  }

  lemma ChannelRoomParts(key: string)
    ensures |ChannelRoom(key)| >= 8 && ChannelRoom(key)[..8] == "channel#" && ChannelRoom(key)[8..] == key
  {
  }

  /** With the intended guard, a socket that was in at most the old channel's
      room is, after switching to a channel key, in exactly the new one. */
  lemma IntendedKeepsOneChannelRoom(rooms: set<Room>, newChannel: string, oldChannel: string)
    requires IsChannelKey(newChannel) && IsChannelKey(oldChannel)
    requires ChannelRoomsOf(rooms) <= {ChannelRoom(oldChannel)}
    ensures ChannelRoomsOf(IntendedChannelTransition(rooms, newChannel, oldChannel)) == {ChannelRoom(newChannel)}
  {
    var after := IntendedChannelTransition(rooms, newChannel, oldChannel);
    ChannelRoomParts(newChannel);
    ChannelRoomParts(oldChannel);
    ChannelRoomInjective(newChannel, oldChannel);
    assert ChannelRoom(newChannel) in ChannelRoomsOf(after);
  }

  // ---------------------------------------------------------------------------
  // The channel room of the `message` handler

  /** `channel#${channelId}` for the numeric `channelId` of a `message`
      event. */
  function MessageChannelRoom(channelId: int): Room {
    ChannelRoom(DecimalText(channelId))
  }

  /** As written, the room a `message` is sent to is never a room that
      `setActiveChannel` joins: a decimal id starts with a digit or `-`, never
      with `c#` or `d#`. */
  lemma MessageRoomNeverJoined(channelId: int, key: string, rooms: set<Room>, oldChannel: string)
    requires IsChannelKey(key)
    ensures MessageChannelRoom(channelId) != ChannelRoom(key)
    ensures MessageChannelRoom(channelId) in ChannelTransition(rooms, key, oldChannel) ==>
            MessageChannelRoom(channelId) in rooms
  {
    ChannelRoomInjective(DecimalText(channelId), key);
    assert Slice2(key)[0] == key[0];
    assert DecimalText(channelId)[0] != key[0];
    ChannelTransitionEffect(rooms, key, oldChannel);
  }

  /** The channel room the `message` handler evidently means: the room of the
      public channel key `c#<channelId>`. */
  function IntendedMessageChannelRoom(channelId: int): Room {
    ChannelRoom("c#" + DecimalText(channelId))
  }

  /** A socket that made channel `c#<channelId>` active is in the intended
      room of a message to `channelId`, and no other channel's message room
      reaches it through that channel. */
  lemma IntendedMessageRoomIsJoined(channelId: int, other: int, rooms: set<Room>, oldChannel: string)
    ensures IntendedMessageChannelRoom(channelId) in IntendedChannelTransition(rooms, "c#" + DecimalText(channelId), oldChannel)
    ensures IntendedMessageChannelRoom(other) == ChannelRoom("c#" + DecimalText(channelId)) <==> other == channelId
  {
    var key := "c#" + DecimalText(channelId);
    assert Slice2(key) == "c#";
    ChannelRoomInjective(key, oldChannel);
    ChannelRoomInjective("c#" + DecimalText(other), key);
    if "c#" + DecimalText(other) == key {
      assert DecimalText(other) == key[2..];
    }
    DecimalTextInjective(other, channelId);
  }
}
