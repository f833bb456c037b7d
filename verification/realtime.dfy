/** The Socket.IO hub set up at bootstrap: a token gate on the handshake,
    the automatic join of the personal room, the client's join and leave
    requests, and the events the controllers emit to rooms. */
module Realtime {
  import opened Basics
  import opened Rooms
  import opened MessageStore

  type SocketId = nat

  /** Connected sockets: the user each one authenticated as and the rooms
      it is in. */
  datatype Hub = Hub(users: map<SocketId, UserId>, rooms: map<SocketId, set<string>>)

  /** Every connected socket has both a user and a room set. */
  predicate Valid(h: Hub)
  {
    h.users.Keys == h.rooms.Keys
  }

  /** What an emitted event carries. */
  datatype Payload = NewMessage(message: Message) | MessagesRead(userId: UserId)

  /** `io.to(room).emit(name, payload)`, recorded in the order emitted. */
  datatype Event = Event(room: string, name: string, payload: Payload)

  /** The outcome of the `io.use` middleware followed by the `connection`
      handler, with the hub afterwards. */
  datatype Handshake = Accepted(hub: Hub) | Rejected(error: string, hub: Hub)

  /** A socket receives an event when it is in the event's room at the
      time of the emit. */
  function Recipients(h: Hub, room: string): (r: set<SocketId>)
    ensures forall s :: s in r <==> s in h.rooms && room in h.rooms[s]
    ensures Valid(h) ==> r <= h.users.Keys
  {
    set s | s in h.rooms && room in h.rooms[s]
  }

  /** The handshake of a new socket `sid` presenting `token`: a missing or
      empty token, or one `verify` (standing for `jwt.verify` with the
      users-permissions secret) rejects, fails with "Authentication error";
      otherwise the socket is recorded as the decoded user and joins
      `user_<id>`. */
  function Connect(h: Hub, sid: SocketId, token: Option<string>, verify: string -> Option<UserId>): (r: Handshake)
    requires Valid(h) && sid !in h.rooms
    ensures r.Rejected? <==> !PresentText(token) || verify(token.value).None?
    ensures r.Rejected? ==> r.error == "Authentication error" && r.hub == h
    ensures r.Accepted? ==> Valid(r.hub) && sid in r.hub.users && r.hub.users[sid] == verify(token.value).value
    ensures r.Accepted? ==> forall s :: s != sid ==> (s in r.hub.rooms <==> s in h.rooms)
    ensures r.Accepted? ==> forall s :: s != sid && s in h.rooms ==> r.hub.rooms[s] == h.rooms[s]
    ensures r.Accepted? ==> forall s :: s != sid && s in h.users ==> s in r.hub.users && r.hub.users[s] == h.users[s]
  {
    if !PresentText(token) then Rejected("Authentication error", h)
    else match verify(token.value)
      case None => Rejected("Authentication error", h)
      case Some(id) => Accepted(Hub(h.users[sid := id], h.rooms[sid := {UserRoom(id)}]))
  }

  /** Requests a connected socket can send. */
  datatype Request = JoinUserRoom(room: string) | JoinRoom(room: string) | LeaveRoom(room: string) | Disconnect

  /** The `socket.on` handlers: both join requests call `socket.join`,
      `leave_room` calls `socket.leave` with no guard, and a disconnect
      drops the socket from every room. */
  function Handle(h: Hub, sid: SocketId, q: Request): (r: Hub)
    requires Valid(h) && sid in h.rooms
    ensures Valid(r)
    ensures forall s :: s != sid ==> (s in r.rooms <==> s in h.rooms)
    ensures forall s :: s != sid && s in h.rooms ==> r.rooms[s] == h.rooms[s]
    ensures forall s :: s != sid && s in h.users ==> s in r.users && r.users[s] == h.users[s]
    ensures !q.Disconnect? ==> sid in r.rooms && r.users[sid] == h.users[sid]
    ensures (q.JoinRoom? || q.JoinUserRoom?) ==>
      forall x :: x in r.rooms[sid] <==> x in h.rooms[sid] || x == q.room
    ensures q.LeaveRoom? ==> forall x :: x in r.rooms[sid] <==> x in h.rooms[sid] && x != q.room
    ensures q.Disconnect? ==> sid !in r.rooms
  {
    match q
    case JoinUserRoom(room) => h.(rooms := h.rooms[sid := h.rooms[sid] + {room}])
    case JoinRoom(room) => h.(rooms := h.rooms[sid := h.rooms[sid] + {room}])
    case LeaveRoom(room) => h.(rooms := h.rooms[sid := h.rooms[sid] - {room}])
    case Disconnect => Hub(h.users - {sid}, h.rooms - {sid})
  }

  /** An accepted socket receives what is emitted to its user's personal
      room, before it has joined anything itself. */
  lemma ConnectJoinsPersonalRoom(h: Hub, sid: SocketId, token: Option<string>, verify: string -> Option<UserId>)
    requires Valid(h) && sid !in h.rooms
    requires Connect(h, sid, token, verify).Accepted?
    ensures var h' := Connect(h, sid, token, verify).hub;
      sid in Recipients(h', UserRoom(h'.users[sid])) && h'.rooms[sid] == {UserRoom(h'.users[sid])}
  {
  }

  /** A rejected handshake records nothing: the hub is as before, and the
      socket receives nothing emitted to any room. */
  lemma RejectedJoinsNothing(h: Hub, sid: SocketId, token: Option<string>, verify: string -> Option<UserId>, room: string)
    requires Valid(h) && sid !in h.rooms
    requires Connect(h, sid, token, verify).Rejected?
    ensures Connect(h, sid, token, verify).hub == h
    ensures sid !in Connect(h, sid, token, verify).hub.users
    ensures sid !in Recipients(Connect(h, sid, token, verify).hub, room)
  {
  }

  /** Joining a room twice is the same as joining it once, through either
      join request. */
  lemma JoinIdempotent(h: Hub, sid: SocketId, room: string)
    requires Valid(h) && sid in h.rooms
    ensures Handle(Handle(h, sid, JoinRoom(room)), sid, JoinRoom(room)) == Handle(h, sid, JoinRoom(room))
    ensures Handle(h, sid, JoinUserRoom(room)) == Handle(h, sid, JoinRoom(room))
  {
  }

  /** Leaving a room the socket is not in changes nothing. */
  lemma LeaveAbsentRoom(h: Hub, sid: SocketId, room: string)
    requires Valid(h) && sid in h.rooms && room !in h.rooms[sid]
    ensures Handle(h, sid, LeaveRoom(room)) == h
  {
    assert h.rooms[sid] - {room} == h.rooms[sid];
    assert h.rooms[sid := h.rooms[sid]] == h.rooms;
  }

  /** Nothing protects the personal room: after `leave_room` with
      `user_<id>` the socket no longer receives events sent there. */
  lemma PersonalRoomCanBeLeft(h: Hub, sid: SocketId)
    requires Valid(h) && sid in h.rooms
    ensures sid !in Recipients(Handle(h, sid, LeaveRoom(UserRoom(h.users[sid]))), UserRoom(h.users[sid]))
  {
  }

  /** A disconnected socket receives nothing. */
  lemma DisconnectedReceivesNothing(h: Hub, sid: SocketId, room: string)
    requires Valid(h) && sid in h.rooms
    ensures sid !in Recipients(Handle(h, sid, Disconnect), room)
  {
  }
}
