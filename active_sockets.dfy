/** `src/socket/ActiveSockets.ts`: the in-process table of connected
    sockets, keyed by socket id. */
module ActiveSockets {
  import opened Common
  import opened Rooms

  class ActiveSockets {
    var sockets: map<SocketId, Socket>

    constructor()
      ensures sockets == map[]
    {
      sockets := map[];
    }

    /** `add`: `this.sockets = { ...this.sockets, [socket.id]: socket }`. */
    method Add(socket: Socket)
      modifies this
      ensures sockets == old(sockets)[socket.id := socket]
      ensures socket.id in old(sockets) ==> |sockets| == |old(sockets)|
      ensures forall id :: id != socket.id ==> (id in sockets <==> id in old(sockets))
      ensures forall id :: id != socket.id && id in sockets ==> sockets[id] == old(sockets)[id]
    {
      UpdateKeepsSize(sockets, socket.id, socket);
      sockets := sockets[socket.id := socket];
    }

    /** `remove` as written: `_.omit` returns a new object and the result is
        dropped, so the table is left as it was. */
    method Remove(id: SocketId)
      modifies this
      ensures sockets == old(sockets)
    {
    }

    /** `remove` as evidently intended:
        `this.sockets = _.omit(this.sockets, id)`. */
    method RemoveIntended(id: SocketId)
      modifies this
      ensures sockets == old(sockets) - {id}
      ensures id !in sockets
      ensures forall other :: other != id && other in old(sockets) ==> other in sockets && sockets[other] == old(sockets)[other]
    {
      sockets := sockets - {id};
    }
  }

  /** Overwriting an existing key keeps the number of entries. */
  lemma UpdateKeepsSize<K, V>(m: map<K, V>, k: K, v: V)
    ensures k in m ==> |m[k := v]| == |m|
    ensures k !in m ==> |m[k := v]| == |m| + 1
  {
    if k in m {
      assert m[k := v].Keys == m.Keys;
    } else {
      assert m[k := v].Keys == m.Keys + {k};
    }
  }

  /** As written, a socket that was added and then removed is still in the
      table. */
  method AddThenRemoveKeepsSocket(table: ActiveSockets, socket: Socket)
    modifies table
    ensures socket.id in table.sockets && table.sockets[socket.id] == socket
  {
    table.Add(socket);
    table.Remove(socket.id);
  }

  /** As intended, removing after adding leaves no entry for the socket. */
  method AddThenRemoveIntendedDropsSocket(table: ActiveSockets, socket: Socket)
    modifies table
    ensures socket.id !in table.sockets
    ensures forall id :: id != socket.id ==> (id in table.sockets <==> id in old(table.sockets))
  {
    table.Add(socket);
    table.RemoveIntended(socket.id);
  }
}
