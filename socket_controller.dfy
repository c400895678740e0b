/** `src/socket/SocketController.ts`: the per-socket event handlers.  Each
    handler's event payload arrives as arguments, with `None` for a key the
    client left out; the session cookie (`getCookieFromRequest`) is the
    `token` argument.  What a handler emits is returned instead of sent: the
    rooms a broadcast goes to, or the socket ids a direct message goes to. */
module SocketController {
  import opened Common
  import opened Types
  import opened Tables
  import opened Rooms
  import opened ActiveSockets
  import opened SocketRepository
  import opened SocketService

  /** `'user disconnected'` with the user's id, sent to one room. */
  datatype Presence = Presence(room: Room, userId: UserId)

  /** `ChatMessagePacket`; `serverId` is `None` in a direct message, which
      omits it, and `contentType` is `None` because the enum member the
      handlers name does not exist. */
  datatype ChatMessagePacket = ChatMessagePacket(
    id: int,
    content: string,
    channelId: ChannelId,
    serverId: Option<ServerId>,
    timestamp: int,
    userId: UserId,
    contentType: Option<ContentType>)

  /** `io.to(room).to(room')…emit('message', packet)` */
  datatype Broadcast = Broadcast(rooms: set<Room>, packet: ChatMessagePacket)

  /** `io.to(socketId).emit('directMessage', packet)` */
  datatype Delivery = Delivery(socketId: SocketId, packet: ChatMessagePacket)

  /** What the direct-message service call reports: `{ timestamp, userId,
      id, channelId }`. */
  datatype DmReceipt = DmReceipt(timestamp: int, userId: UserId, id: int, channelId: ChannelId)

  const NotSignedIn: Failure := CustomError(401, "not signed in", Auth)

  function MissingKey(key: string): Failure {
    CustomError(400, "missing key \"" + key + "\"", BadRequest)
  }

  /** JavaScript truthiness of an optional string and of an optional
      number. */
  predicate TextGiven(s: Option<string>) { s.Some? && s.value != "" }
  predicate NumberGiven(n: Option<int>) { n.Some? && n.value != 0 }

  /** The first failing guard of the `message` handler, in source order. */
  function MessageGuard(token: string, text: Option<string>, channelId: Option<int>, serverId: Option<int>): (r: Option<Failure>)
    ensures r.None? <==> token != "" && TextGiven(text) && NumberGiven(channelId) && NumberGiven(serverId)
    ensures token == "" ==> r == Some(NotSignedIn)
    ensures token != "" && !TextGiven(text) ==> r == Some(MissingKey("text"))
    ensures token != "" && TextGiven(text) && !NumberGiven(channelId) ==> r == Some(MissingKey("channelId"))
    ensures token != "" && TextGiven(text) && NumberGiven(channelId) && !NumberGiven(serverId) ==> r == Some(MissingKey("serverId"))
  {
    if token == "" then Some(NotSignedIn)
    else if !TextGiven(text) then Some(MissingKey("text"))
    else if !NumberGiven(channelId) then Some(MissingKey("channelId"))
    else if !NumberGiven(serverId) then Some(MissingKey("serverId"))
    else None
  }

  /** The first failing guard of the `directMessage` handler.  An empty
      `recipients` array is truthy and passes. */
  function DirectMessageGuard(token: string, text: Option<string>, recipients: Option<seq<UserId>>): (r: Option<Failure>)
    ensures r.None? <==> token != "" && TextGiven(text) && recipients.Some?
    ensures token == "" ==> r == Some(NotSignedIn)
    ensures token != "" && !TextGiven(text) ==> r == Some(MissingKey("text"))
    ensures token != "" && TextGiven(text) && recipients.None? ==> r == Some(MissingKey("recipients"))
  {
    if token == "" then Some(NotSignedIn)
    else if !TextGiven(text) then Some(MissingKey("text"))
    else if recipients.None? then Some(MissingKey("recipients"))
    else None
  }

  /** The guards are distinct errors, so the failing guard can be told from
      the error alone. */
  lemma MissingKeysDiffer(a: string, b: string)
    ensures MissingKey(a) == MissingKey(b) <==> a == b
    ensures MissingKey(a) != NotSignedIn
  {
    if MissingKey(a) == MissingKey(b) {
      var ma, mb := MissingKey(a).message, MissingKey(b).message;
      assert ma[13..|ma| - 1] == a;
      assert mb[13..|mb| - 1] == b;
    }
  }

  class SocketController {
    const service: SocketService
    const activeSockets: ActiveSockets

    /** A fresh table of active sockets; the client table is emptied. */
    constructor(service: SocketService)
      modifies service.repository.db`clients
      ensures this.service == service
      ensures fresh(activeSockets) && activeSockets.sockets == map[]
      ensures service.repository.db.clients == []
    {
      this.service := service;
      activeSockets := new ActiveSockets();
      new;
      service.ClearClientTable();
    }

    /** `onConnect`: the socket joins the active table and is recorded in
        the client table under the id of the token `verifySocketToken`
        decoded (`None` when the cookie did not verify). */
    method OnConnect(socket: Socket, decoded: Option<JwtDecoded>)
      modifies activeSockets, service.repository.db`clients
      ensures activeSockets.sockets == old(activeSockets.sockets)[socket.id := socket]
      ensures service.repository.db.clients ==
        old(service.repository.db.clients) + ClientRowsFor(service.repository.db.users, socket.id, UsernameArgument(decoded))
    {
      activeSockets.Add(socket);
      service.AddClient(socket.id, decoded);
    }

    /** `disconnecting`: `activeSockets.remove` is called, which as written
        leaves the active table as it was; the socket's client rows are
        deleted, and when it had a client row each room it is in gets exactly
        one `'user disconnected'` with that client's user id. */
    method OnDisconnecting(socket: Socket) returns (sent: seq<Presence>)
      modifies activeSockets, service.repository.db`clients
      ensures activeSockets.sockets == old(activeSockets.sockets)
      ensures service.repository.db.clients == WithoutSocket(old(service.repository.db.clients), socket.id)
      ensures DisconnectNotices(sent, socket.rooms, ClientOf(old(service.repository.db.clients), socket.id))
    {
      activeSockets.Remove(socket.id);
      sent := ReleaseClient(socket);
    }

    /** `disconnecting` with the corrected `remove`: the socket leaves the
        active table, the rest as in `OnDisconnecting`. */
    method OnDisconnectingIntended(socket: Socket) returns (sent: seq<Presence>)
      modifies activeSockets, service.repository.db`clients
      ensures activeSockets.sockets == old(activeSockets.sockets) - {socket.id}
      ensures service.repository.db.clients == WithoutSocket(old(service.repository.db.clients), socket.id)
      ensures DisconnectNotices(sent, socket.rooms, ClientOf(old(service.repository.db.clients), socket.id))
    {
      activeSockets.RemoveIntended(socket.id);
      sent := ReleaseClient(socket);
    }

    /** The client-table half of `disconnecting`: read the socket's client
        row, delete its rows, and announce the departure to its rooms. */
    method ReleaseClient(socket: Socket) returns (sent: seq<Presence>)
      modifies service.repository.db`clients
      ensures service.repository.db.clients == WithoutSocket(old(service.repository.db.clients), socket.id)
      ensures DisconnectNotices(sent, socket.rooms, ClientOf(old(service.repository.db.clients), socket.id))
    {
      var client := service.GetClient(socket.id);
      service.RemoveClient(socket.id);
      sent := [];
      if client.None? {
        return;
      }
      sent := AnnounceToRooms(socket.rooms, client.value.userId);
    }

    /** `setActiveServer({ newServer, oldServer })` */
    method SetActiveServer(socket: Socket, newServer: int, oldServer: Option<int>)
      modifies socket
      ensures socket.rooms == ServerTransition(old(socket.rooms), newServer, oldServer)
    {
      socket.Join(ServerRoom(newServer));
      if LeavesOldServer(newServer, oldServer) {
        socket.Leave(ServerRoom(oldServer.value));
      }
    }

    /** `setActiveChannel({ newChannel, oldChannel })` as written; an absent
        `oldChannel` is the empty (falsy) key. */
    method SetActiveChannel(socket: Socket, newChannel: string, oldChannel: string)
      modifies socket
      ensures socket.rooms == ChannelTransition(old(socket.rooms), newChannel, oldChannel)
    {
      if IsChannelKey(newChannel) {
        socket.Join(ChannelRoom(newChannel));
      }
      if LeavesOldChannel(newChannel, oldChannel) {
        socket.Leave(ChannelRoom(oldChannel));
      }
    }

    /** `setActiveChannel` with the leave guard corrected to mirror the join
        guard. */
    method SetActiveChannelIntended(socket: Socket, newChannel: string, oldChannel: string)
      modifies socket
      ensures socket.rooms == IntendedChannelTransition(old(socket.rooms), newChannel, oldChannel)
    {
      if IsChannelKey(newChannel) {
        socket.Join(ChannelRoom(newChannel));
      }
      if IntendedLeavesOldChannel(newChannel, oldChannel) {
        socket.Leave(ChannelRoom(oldChannel));
      }
    }

    /** `message({ text, channelId, serverId })`: the guards in order, then
        the service's gates; on success the stored message goes, as a
        packet, to `server#<serverId>` and to `channel#<channelId>`, as
        written.  Nothing is stored or sent on any failure. */
    method OnMessage(token: string, text: Option<string>, channelId: Option<int>, serverId: Option<int>, now: int)
      returns (r: Result<Broadcast>)
      modifies service.repository.db`messages
      ensures MessageGuard(token, text, channelId, serverId).Some? ==>
        r == Err(MessageGuard(token, text, channelId, serverId).value)
      ensures r.Ok? <==> MessageGuard(token, text, channelId, serverId).None? && old(service.MaySend(token, channelId.value))
      ensures MessageGuard(token, text, channelId, serverId).None? && service.verifyJwt(token).None? ==> r == Err(TokenRejected)
      ensures MessageGuard(token, text, channelId, serverId).None? && service.verifyJwt(token).Some? &&
              !old(service.repository.IsUserInServerOfChannel(service.verifyJwt(token).value.userId, channelId.value)) ==>
        r == Err(NotInServer)
      ensures MessageGuard(token, text, channelId, serverId).None? && service.verifyJwt(token).Some? &&
              old(service.repository.IsUserInServerOfChannel(service.verifyJwt(token).value.userId, channelId.value)) &&
              !old(service.repository.IsUserInChannel(service.verifyJwt(token).value.userId, channelId.value)) ==>
        r == Err(NotInChannel)
      ensures r.Err? ==> service.repository.db.messages == old(service.repository.db.messages)
      ensures r.Ok? ==>
        && service.verifyJwt(token).value.userId == Some(r.value.packet.userId)
        && (forall k :: 0 <= k < |old(service.repository.db.messages)| ==>
              old(service.repository.db.messages)[k].id != r.value.packet.id)
      ensures r.Ok? ==>
        var p := r.value.packet;
        && r.value.rooms == {ServerRoom(serverId.value), MessageChannelRoom(channelId.value)}
        && p.content == text.value && p.channelId == channelId.value && p.serverId == serverId
        && p.timestamp == now && p.contentType == None
        && service.repository.db.messages == old(service.repository.db.messages) + [MessageRow(p.id, p.channelId, p.userId, p.content, now)]
    {
      var failure := MessageGuard(token, text, channelId, serverId);
      if failure.Some? {
        return Err(failure.value);
      }
      var receipt := service.SendMessage(token, text.value, channelId.value, now);
      if receipt.Err? {
        return Err(receipt.error);
      }
      var message := ChatMessagePacket(receipt.value.id, text.value, channelId.value, serverId,
                                       receipt.value.timestamp, receipt.value.userId, None);
      r := Ok(Broadcast({ServerRoom(serverId.value), MessageChannelRoom(channelId.value)}, message));
    }

    /** `directMessage({ text, recipients })`, with `dm` the outcome of the
        direct-message service call: one delivery per client row of a
        recipient or of the sender, each carrying the same packet. */
    method OnDirectMessage(token: string, text: Option<string>, recipients: Option<seq<UserId>>, dm: Result<DmReceipt>)
      returns (r: Result<seq<Delivery>>)
      ensures DirectMessageGuard(token, text, recipients).Some? ==>
        r == Err(DirectMessageGuard(token, text, recipients).value)
      ensures DirectMessageGuard(token, text, recipients).None? && dm.Err? ==> r == Err(dm.error)
      ensures r.Ok? <==> DirectMessageGuard(token, text, recipients).None? && dm.Ok?
      ensures r.Ok? ==>
        var targets := recipients.value + [dm.value.userId];
        && (forall k :: 0 <= k < |r.value| ==>
              && r.value[k].packet == ChatMessagePacket(dm.value.id, text.value, dm.value.channelId, None,
                                                        dm.value.timestamp, dm.value.userId, None)
              && SocketOfTarget(service.repository.db.clients, targets, r.value[k].socketId))
        && (forall c :: c in service.repository.db.clients && c.userId in targets ==> Delivered(r.value, c.socketId))
      ensures r.Ok? ==>
        var rows := service.repository.GetSocketIdsFromUserIds(recipients.value + [dm.value.userId]);
        && rows.Some?
        && |r.value| == |rows.value|
        && forall k :: 0 <= k < |rows.value| ==> r.value[k].socketId == rows.value[k].socketId
    {
      var failure := DirectMessageGuard(token, text, recipients);
      if failure.Some? {
        return Err(failure.value);
      }
      if dm.Err? {
        return Err(dm.error);
      }
      var receipt := dm.value;
      var directMessage := ChatMessagePacket(receipt.id, text.value, receipt.channelId, None,
                                             receipt.timestamp, receipt.userId, None);
      var socketIds := service.repository.GetSocketIdsFromUserIds(recipients.value + [receipt.userId]);
      // never `None`: the target list holds at least the sender
      var rows := if socketIds.Some? then socketIds.value else [];
      var deliveries := DeliverToEach(rows, directMessage);
      DeliveriesReachTargets(service.repository.db.clients, recipients.value + [receipt.userId], rows, deliveries, directMessage);
      r := Ok(deliveries);
    }
  }

  /** `socketId` is the socket of a client row of one of `targets`. */
  predicate SocketOfTarget(clients: seq<ClientRow>, targets: seq<UserId>, socketId: SocketId) {
    exists c :: c in clients && c.socketId == socketId && c.userId in targets
  }

  /** Some delivery goes to `socketId`. */
  predicate Delivered(deliveries: seq<Delivery>, socketId: SocketId) {
    exists k :: 0 <= k < |deliveries| && deliveries[k].socketId == socketId
  }

  /** Deliveries made one per row, when the rows are exactly the client
      rows of `targets`, reach a client socket of a target each, and every
      such socket. */
  lemma DeliveriesReachTargets(clients: seq<ClientRow>, targets: seq<UserId>, rows: seq<ClientRow>,
                               deliveries: seq<Delivery>, packet: ChatMessagePacket)
    requires forall k :: 0 <= k < |rows| ==> rows[k] in clients && rows[k].userId in targets
    requires forall k :: 0 <= k < |clients| && clients[k].userId in targets ==> clients[k] in rows
    requires |deliveries| == |rows|
    requires forall k :: 0 <= k < |rows| ==> deliveries[k] == Delivery(rows[k].socketId, packet)
    ensures forall k :: 0 <= k < |deliveries| ==> SocketOfTarget(clients, targets, deliveries[k].socketId)
    ensures forall c :: c in clients && c.userId in targets ==> Delivered(deliveries, c.socketId)
  {
    forall k | 0 <= k < |deliveries|
      ensures SocketOfTarget(clients, targets, deliveries[k].socketId)
    {
      var row := rows[k];
      assert row in clients && row.socketId == deliveries[k].socketId && row.userId in targets;
    }
    forall c | c in clients && c.userId in targets
      ensures Delivered(deliveries, c.socketId)
    {
      var j :| 0 <= j < |clients| && clients[j] == c;
      var k :| 0 <= k < |rows| && rows[k] == c;
      assert deliveries[k].socketId == c.socketId;
    }
  }

  /** What `disconnecting` announces: nothing without a client row;
      otherwise one `'user disconnected'` with the client's user id per room
      the socket is in, no room twice. */
  ghost predicate DisconnectNotices(sent: seq<Presence>, rooms: set<Room>, client: Option<ClientRow>) {
    && (client.None? ==> sent == [])
    && (client.Some? ==>
          && |sent| == |rooms|
          && (forall k :: 0 <= k < |sent| ==> sent[k].room in rooms && sent[k].userId == client.value.userId)
          && (forall room :: room in rooms ==> exists k :: 0 <= k < |sent| && sent[k].room == room)
          && (forall i, j :: 0 <= i < j < |sent| ==> sent[i].room != sent[j].room))
  }

  /** The rooms a list of presence notices goes to. */
  ghost function RoomsOf(sent: seq<Presence>): set<Room> {
    set k | 0 <= k < |sent| :: sent[k].room
  }

  lemma RoomsOfAppend(sent: seq<Presence>, p: Presence)
    ensures RoomsOf(sent + [p]) == RoomsOf(sent) + {p.room}
  {
    var after := sent + [p];
    assert after[|sent|] == p;
    forall r | r in RoomsOf(sent) ensures r in RoomsOf(after) {
      var k :| 0 <= k < |sent| && sent[k].room == r;
      assert after[k] == sent[k];
    }
    forall r | r in RoomsOf(after) ensures r in RoomsOf(sent) + {p.room} {
      var k :| 0 <= k < |after| && after[k].room == r;
      if k < |sent| {
        assert sent[k] == after[k];
      }
    }
  }

  /** After announcing to the rooms of `rooms` not in `remaining`: one
      notice with `userId` per such room. */
  ghost predicate AnnouncedSoFar(sent: seq<Presence>, rooms: set<Room>, remaining: set<Room>, userId: UserId) {
    && remaining <= rooms
    && RoomsOf(sent) == rooms - remaining
    && |sent| + |remaining| == |rooms|
    && (forall k :: 0 <= k < |sent| ==> sent[k].room !in remaining && sent[k].userId == userId)
    && (forall i, j :: 0 <= i < j < |sent| ==> sent[i].room != sent[j].room)
  }

  /** Announcing to one more remaining room keeps `AnnouncedSoFar`. */
  lemma AnnounceStep(sent: seq<Presence>, rooms: set<Room>, remaining: set<Room>, userId: UserId, room: Room)
    requires AnnouncedSoFar(sent, rooms, remaining, userId)
    requires room in remaining
    ensures AnnouncedSoFar(sent + [Presence(room, userId)], rooms, remaining - {room}, userId)
  {
    var after := sent + [Presence(room, userId)];
    RoomsOfAppend(sent, Presence(room, userId));
    assert |remaining - {room}| == |remaining| - 1;
    forall k | 0 <= k < |after|
      ensures after[k].room !in remaining - {room} && after[k].userId == userId
    {
      if k < |sent| {
        assert after[k] == sent[k];
      }
    }
    forall i, j | 0 <= i < j < |after| ensures after[i].room != after[j].room {
      assert after[i] == sent[i];
      if j < |sent| {
        assert after[j] == sent[j];
      }
    }
  }

  /** Once no room remains, every room got exactly one notice. */
  lemma AnnounceDone(sent: seq<Presence>, rooms: set<Room>, userId: UserId)
    requires AnnouncedSoFar(sent, rooms, {}, userId)
    ensures |sent| == |rooms|
    ensures forall k :: 0 <= k < |sent| ==> sent[k].room in rooms && sent[k].userId == userId
    ensures forall room :: room in rooms ==> exists k :: 0 <= k < |sent| && sent[k].room == room
    ensures forall i, j :: 0 <= i < j < |sent| ==> sent[i].room != sent[j].room
  {
    forall k | 0 <= k < |sent| ensures sent[k].room in rooms {
      assert sent[k].room in RoomsOf(sent);
    }
    forall room | room in rooms ensures exists k :: 0 <= k < |sent| && sent[k].room == room {
      assert room in RoomsOf(sent);
    }
  }

  /** The `forEach` over the socket's rooms: exactly one `'user
      disconnected'` with `userId` per room. */
  method AnnounceToRooms(rooms: set<Room>, userId: UserId) returns (sent: seq<Presence>)
    ensures |sent| == |rooms|
    ensures forall k :: 0 <= k < |sent| ==> sent[k].room in rooms && sent[k].userId == userId
    ensures forall room :: room in rooms ==> exists k :: 0 <= k < |sent| && sent[k].room == room
    ensures forall i, j :: 0 <= i < j < |sent| ==> sent[i].room != sent[j].room
  {
    sent := [];
    var remaining := rooms;
    while remaining != {}
      invariant AnnouncedSoFar(sent, rooms, remaining, userId)
      decreases |remaining|
    {
      var room :| room in remaining;
      AnnounceStep(sent, rooms, remaining, userId, room);
      sent := sent + [Presence(room, userId)];
      remaining := remaining - {room};
    }
    AnnounceDone(sent, rooms, userId);
  }

  /** `socketIds.forEach(socketId => io.to(socketId.socketId).emit(…))`:
      one delivery of the packet per row, in row order. */
  method DeliverToEach(rows: seq<ClientRow>, packet: ChatMessagePacket) returns (deliveries: seq<Delivery>)
    ensures |deliveries| == |rows|
    ensures forall k :: 0 <= k < |rows| ==> deliveries[k] == Delivery(rows[k].socketId, packet)
  {
    deliveries := [];
    var i := 0;
    while i < |rows|
      invariant 0 <= i <= |rows|
      invariant |deliveries| == i
      invariant forall k :: 0 <= k < i ==> deliveries[k] == Delivery(rows[k].socketId, packet)
    {
      deliveries := deliveries + [Delivery(rows[i].socketId, packet)];
      i := i + 1;
    }
  }

  /** As written, a socket that connected and then disconnected is still in
      the table of active sockets, and no other key changed. */
  method ConnectThenDisconnectKeepsSocket(controller: SocketController, socket: Socket, decoded: Option<JwtDecoded>)
    modifies controller.activeSockets, controller.service.repository.db`clients
    ensures socket.id in controller.activeSockets.sockets && controller.activeSockets.sockets[socket.id] == socket
    ensures forall id :: id != socket.id ==> (id in controller.activeSockets.sockets <==> id in old(controller.activeSockets.sockets))
  {
    controller.OnConnect(socket, decoded);
    var _ := controller.OnDisconnecting(socket);
  }

  /** With the corrected `remove`, a socket that connected and then
      disconnected is gone from the active table, and no other entry
      changed. */
  method ConnectThenDisconnectIntendedDropsSocket(controller: SocketController, socket: Socket, decoded: Option<JwtDecoded>)
    modifies controller.activeSockets, controller.service.repository.db`clients
    ensures socket.id !in controller.activeSockets.sockets
    ensures forall id :: id != socket.id ==> (id in controller.activeSockets.sockets <==> id in old(controller.activeSockets.sockets))
  {
    controller.OnConnect(socket, decoded);
    var _ := controller.OnDisconnectingIntended(socket);
  }
}
