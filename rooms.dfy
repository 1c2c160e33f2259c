/**
 * The socket.io side of the server as the handlers see it: each room is a
 * set of connection ids, and everything the server sends is appended to an
 * outbox in the order it was sent. An emission to a room records who was in
 * the room at that moment.
 */
module Rooms {
  import opened Types

  type ConnId = string

  /** The server-to-client events of the chat protocol. */
  datatype Event =
    | ErrorEvent(message: string)
    | JoinedGroup(groupId: Id, room: string)
    | ReceiveMessage(payload: ReceiveMessagePayload)

  /** `socket.emit(…)` reaches one connection; `io.to(room).emit(…)` reaches the room's members. */
  datatype Emission =
    | ToSocket(conn: ConnId, event: Event)
    | ToRoom(room: string, recipients: set<ConnId>, event: Event)

  /** The members of `room`; a room nobody joined is empty. */
  function MembersOf(rooms: map<string, set<ConnId>>, room: string): (r: set<ConnId>)
    ensures room !in rooms ==> r == {}
  {
    if room in rooms then rooms[room] else {}
  }

  /** The registry after `conn` joins `room`. */
  function Joined(rooms: map<string, set<ConnId>>, room: string, conn: ConnId): (r: map<string, set<ConnId>>)
    ensures MembersOf(r, room) == MembersOf(rooms, room) + {conn}
    ensures forall other :: other != room ==> MembersOf(r, other) == MembersOf(rooms, other)
  {
    rooms[room := MembersOf(rooms, room) + {conn}]
  }

  /** The registry after `conn` leaves every room (socket.io does this on disconnect). */
  function Left(rooms: map<string, set<ConnId>>, conn: ConnId): (r: map<string, set<ConnId>>)
    ensures forall room :: MembersOf(r, room) == MembersOf(rooms, room) - {conn}
  {
    map room | room in rooms :: rooms[room] - {conn}
  }

  /** Joining a room twice is joining it once. */
  lemma JoinIdempotent(rooms: map<string, set<ConnId>>, room: string, conn: ConnId)
    ensures Joined(Joined(rooms, room, conn), room, conn) == Joined(rooms, room, conn)
  {
    var once := Joined(rooms, room, conn);
    assert MembersOf(once, room) + {conn} == MembersOf(once, room);
  }

  /** A connection that left everything is in no room, whatever it had joined before. */
  lemma LeftAfterJoin(rooms: map<string, set<ConnId>>, room: string, conn: ConnId)
    ensures forall r :: conn !in MembersOf(Left(Joined(rooms, room, conn), conn), r)
    ensures forall r :: MembersOf(Left(Joined(rooms, room, conn), conn), r) == MembersOf(Left(rooms, conn), r)
  {
  }

  class Registry {
    var rooms: map<string, set<ConnId>>
    var outbox: seq<Emission>

    constructor ()
      ensures rooms == map[] && outbox == []
    {
      rooms, outbox := map[], [];
    }

    function Members(room: string): (r: set<ConnId>)
      reads this
      ensures r == MembersOf(rooms, room)
    {
      MembersOf(rooms, room)
    }

    /** `socket.join(room)` */
    method Join(conn: ConnId, room: string)
      modifies this
      ensures rooms == Joined(old(rooms), room, conn)
      ensures outbox == old(outbox)
    {
      rooms := Joined(rooms, room, conn);
    }

    /** The library's removal of a disconnected socket from all its rooms. */
    method LeaveAll(conn: ConnId)
      modifies this
      ensures rooms == Left(old(rooms), conn)
      ensures outbox == old(outbox)
    {
      rooms := Left(rooms, conn);
    }

    /** `socket.emit(event)` */
    method EmitTo(conn: ConnId, event: Event)
      modifies this
      ensures outbox == old(outbox) + [ToSocket(conn, event)]
      ensures rooms == old(rooms)
    {
      outbox := outbox + [ToSocket(conn, event)];
    }

    /** `io.to(room).emit(event)`: delivered to the room's members at this moment. */
    method Broadcast(room: string, event: Event)
      modifies this
      ensures outbox == old(outbox) + [ToRoom(room, MembersOf(old(rooms), room), event)]
      ensures rooms == old(rooms)
    {
      outbox := outbox + [ToRoom(room, Members(room), event)];
    }
  }
}
