/** The message controller's actions: each validates its request in a fixed
    order, reads or writes the store, and emits to the hub. An action's
    effect is its reply, the store afterwards and the events it emitted. */
module MessageService {
  import opened Basics
  import opened Decimal
  import opened Rooms
  import opened MessageStore
  import opened ConversationIndex
  import opened Realtime

  /** The HTTP reply: Koa's `ctx.unauthorized` (401), `ctx.badRequest`
      (400), `ctx.notFound` (404), `ctx.internalServerError` (500), or a
      success status with a body. */
  datatype Reply<T> =
    | Unauthorized(msg: string)
    | BadRequest(msg: string)
    | NotFound(msg: string)
    | ServerError(msg: string)
    | Ok(status: nat, body: T)

  datatype Outcome<T> = Outcome(reply: Reply<T>, store: Store, events: seq<Event>)

  /** What the actions consult besides the store: the user directory
      (`findOne` on users-permissions users), whether `strapi.io` is set, and
      the clock that stamps `createdAt`. */
  datatype Env = Env(directory: set<UserId>, io: bool, now: int)

  /** A failed action changes nothing and emits nothing. */
  function Refuse<T>(reply: Reply<T>, s: Store): Outcome<T>
  {
    Outcome(reply, s, [])
  }

  /** The two `new_message` emits: to the conversation room and to the
      recipient's personal room. */
  function Announce(io: bool, conversation: string, recipient: UserId, m: Message): (r: seq<Event>)
    ensures |r| == if io then 2 else 0
    ensures forall e :: e in r ==> e.name == "new_message" && e.payload == NewMessage(m)
    ensures io ==> r[0].room == conversation && r[1].room == UserRoom(recipient)
  {
    if io then [Event(conversation, "new_message", NewMessage(m)), Event(UserRoom(recipient), "new_message", NewMessage(m))]
    else []
  }

  /** `create` (POST /messages): a text message from the caller to
      `received_user`. */
  function SendText(caller: Option<UserId>, receivedUser: Option<nat>, content: Option<string>, env: Env, s: Store): (out: Outcome<Message>)
    ensures out.reply.Ok? <==> caller.Some? && PresentId(receivedUser) && PresentText(content) && receivedUser.value in env.directory
    ensures !out.reply.Ok? ==> out.store == s && out.events == []
    ensures out.reply.Ok? ==>
      && out.reply.status == 201
      && out.store.messages == s.messages + [out.reply.body]
      && out.reply.body.sender == caller && out.reply.body.recipient == receivedUser
      && out.reply.body.content == content.value && out.reply.body.kind == Text
      && !out.reply.body.isRead && out.reply.body.duration.None?
    ensures out.reply.Ok? && env.io ==>
      out.events == [ Event(RoomByString(caller.value, receivedUser.value), "new_message", NewMessage(out.reply.body)),
                      Event(UserRoom(receivedUser.value), "new_message", NewMessage(out.reply.body)) ]
    ensures !env.io ==> out.events == []
    ensures WellFormed(s) ==> WellFormed(out.store)
  {
    if caller.None? then Refuse(Unauthorized("You must be logged in to send a message."), s)
    else if !PresentId(receivedUser) then Refuse(BadRequest("received_user ID is required."), s)
    else if !PresentText(content) then Refuse(BadRequest("Message content is required."), s)
    else if receivedUser.value !in env.directory then Refuse(NotFound("Recipient user not found."), s)
    else
      var sender, recipient := caller.value, receivedUser.value;
      var (s', m) := Create(s, Draft(sender, recipient, content.value, Text, None), env.now);
      Outcome(Ok(201, m), s', Announce(env.io, RoomByString(sender, recipient), recipient, m))
  }

  /** `voice` (POST /messages/voice): a voice message whose content is the
      URL the upload service returned. `uploaded` is that service's answer
      (`None` when it returned no file). The recipient is not looked up, and
      a request without a caller fails only after the upload, when the
      caller's id is read. */
  function SendVoice(caller: Option<UserId>, multipart: bool, receivedUser: Option<nat>, duration: Option<int>,
                     hasFile: bool, uploaded: Option<string>, env: Env, s: Store): (out: Outcome<Message>)
    ensures out.reply.Ok? <==> multipart && PresentId(receivedUser) && hasFile && uploaded.Some? && caller.Some?
    ensures !multipart ==> out.reply == BadRequest("Content-Type must be multipart/form-data")
    ensures multipart && !PresentId(receivedUser) ==> out.reply == BadRequest("received_user is required")
    ensures multipart && PresentId(receivedUser) && !hasFile ==> out.reply == BadRequest("Audio file is required")
    ensures multipart && PresentId(receivedUser) && hasFile && uploaded.None? ==>
      out.reply == BadRequest("Failed to upload audio file")
    ensures multipart && PresentId(receivedUser) && hasFile && uploaded.Some? && caller.None? ==>
      out.reply == ServerError("An error occurred while uploading the voice message.")
    ensures !out.reply.Ok? ==> out.store == s && out.events == []
    ensures out.reply.Ok? ==>
      && out.reply.status == 200
      && out.store.messages == s.messages + [out.reply.body]
      && out.reply.body.sender == caller && out.reply.body.recipient == receivedUser
      && out.reply.body.content == "http://localhost:1337" + uploaded.value
      && out.reply.body.kind == Voice && out.reply.body.duration == duration && !out.reply.body.isRead
    ensures out.reply.Ok? && env.io ==>
      out.events == [ Event(RoomByNumber(caller.value, receivedUser.value), "new_message", NewMessage(out.reply.body)),
                      Event(UserRoom(receivedUser.value), "new_message", NewMessage(out.reply.body)) ]
    ensures !env.io ==> out.events == []
    ensures WellFormed(s) ==> WellFormed(out.store)
  {
    if !multipart then Refuse(BadRequest("Content-Type must be multipart/form-data"), s)
    else if !PresentId(receivedUser) then Refuse(BadRequest("received_user is required"), s)
    else if !hasFile then Refuse(BadRequest("Audio file is required"), s)
    else if uploaded.None? then Refuse(BadRequest("Failed to upload audio file"), s)
    else if caller.None? then Refuse(ServerError("An error occurred while uploading the voice message."), s)
    else
      var sender, recipient := caller.value, receivedUser.value;
      var (s', m) := Create(s, Draft(sender, recipient, "http://localhost:1337" + uploaded.value, Voice, duration), env.now);
      Outcome(Ok(200, m), s', Announce(env.io, RoomByNumber(sender, recipient), recipient, m))
  }

  /** `markMessagesAsRead` (POST /messages/mark-as-read): every unread
      message from `otherUserId` to the caller becomes read, and the other
      user's personal room is told that the caller read them. The body is
      `{ success: true }`. */
  function MarkAsRead(caller: Option<UserId>, otherUserId: Option<nat>, env: Env, s: Store): (out: Outcome<bool>)
    ensures out.reply.Ok? <==> caller.Some? && PresentId(otherUserId)
    ensures caller.None? ==> out.reply == Unauthorized("You must be logged in to mark messages as read.")
    ensures caller.Some? && !PresentId(otherUserId) ==> out.reply == BadRequest("otherUserId is required.")
    ensures !out.reply.Ok? ==> out.store == s && out.events == []
    ensures out.reply.Ok? ==>
      && out.reply == Ok(200, true)
      && out.store == Store(MarkRead(s.messages, otherUserId.value, caller.value), s.nextId)
      && out.events == (if env.io then [Event(UserRoom(otherUserId.value), "messages_read", MessagesRead(caller.value))] else [])
    ensures WellFormed(s) ==> WellFormed(out.store)
  {
    if caller.None? then Refuse(Unauthorized("You must be logged in to mark messages as read."), s)
    else if !PresentId(otherUserId) then Refuse(BadRequest("otherUserId is required."), s)
    else
      var reader, other := caller.value, otherUserId.value;
      var evs := if env.io then [Event(UserRoom(other), "messages_read", MessagesRead(reader))] else [];
      Outcome(Ok(200, true), Store(MarkRead(s.messages, other, reader), s.nextId), evs)
  }

  /** `getMessagesWithUser` (GET /messages/to/:receiverUserId): both
      directions of the conversation with the named user, oldest first. */
  function History(caller: Option<UserId>, receiverUserId: Option<string>, directory: set<UserId>, s: Store): (r: Reply<seq<Message>>)
    ensures r.Ok? <==> caller.Some? && PresentText(receiverUserId) && ParseNat(receiverUserId.value).Some?
                       && ParseNat(receiverUserId.value).value in directory
    ensures caller.None? ==> r == Unauthorized("You must be logged in to access this resource.")
    ensures caller.Some? && !PresentText(receiverUserId) ==> r == BadRequest("User ID is required.")
    ensures caller.Some? && PresentText(receiverUserId) && ParseNat(receiverUserId.value).None? ==>
      r == BadRequest("Invalid user ID.")
    ensures caller.Some? && PresentText(receiverUserId) && ParseNat(receiverUserId.value).Some? ==>
      (ParseNat(receiverUserId.value).value !in directory <==> r == NotFound("User not found."))
    ensures r.Ok? ==> r.status == 200 && SortedBy(r.body, false)
    ensures r.Ok? ==> forall m :: m in r.body <==> m in s.messages && Between(m, caller.value, ParseNat(receiverUserId.value).value)
    ensures r.Ok? ==> forall m ::
      multiset(r.body)[m] == if Between(m, caller.value, ParseNat(receiverUserId.value).value) then multiset(s.messages)[m] else 0
  {
    if caller.None? then Unauthorized("You must be logged in to access this resource.")
    else if !PresentText(receiverUserId) then BadRequest("User ID is required.")
    else match ParseNat(receiverUserId.value)
      case None => BadRequest("Invalid user ID.")
      case Some(target) =>
        if target !in directory then NotFound("User not found.")
        else
          var w := Where(s.messages, m => Between(m, caller.value, target));
          var r := SortBy(w, false);
          assert forall m :: m in r <==> m in multiset(w);
          Ok(200, r)
  }

  /** `find` (GET /messages): the messages the caller sent, in stored
      order. */
  function OwnMessages(caller: Option<UserId>, s: Store): (r: Reply<seq<Message>>)
    ensures r.Ok? <==> caller.Some?
    ensures caller.None? ==> r == Unauthorized("You must be logged in to view your messages.")
    ensures r.Ok? ==> r.status == 200 && forall m :: m in r.body <==> m in s.messages && m.sender == caller
    ensures r.Ok? ==> forall m :: multiset(r.body)[m] == if m.sender == caller then multiset(s.messages)[m] else 0
  {
    if caller.None? then Unauthorized("You must be logged in to view your messages.")
    else Ok(200, Where(s.messages, m => SentBy(m, caller.value)))
  }

  /** `getChatUsers` (GET /messages/chat-users): one summary per
      counterpart, in ascending counterpart id. */
  function ChatUsers(caller: Option<UserId>, s: Store): (r: Reply<seq<Summary>>)
    ensures r.Ok? <==> caller.Some?
    ensures caller.None? ==> r == Unauthorized("You must be logged in to view your chats.")
    ensures r.Ok? ==> r.status == 200 && forall i, j :: 0 <= i < j < |r.body| ==> r.body[i].user < r.body[j].user
    ensures r.Ok? ==> forall i :: 0 <= i < |r.body| ==> r.body[i].unreadCount == UnreadCount(s.messages, caller.value, r.body[i].user)
  {
    if caller.None? then Unauthorized("You must be logged in to view your chats.")
    else
      ChatListUnread(s.messages, caller.value);
      Ok(200, ChatList(s.messages, caller.value))
  }

  /** The checks of `create` run in order: missing caller, missing
      recipient id, missing content, unknown recipient. */
  lemma SendTextGuardOrder(caller: Option<UserId>, receivedUser: Option<nat>, content: Option<string>, env: Env, s: Store)
    ensures caller.None? ==> SendText(caller, receivedUser, content, env, s).reply.Unauthorized?
    ensures caller.Some? && !PresentId(receivedUser) ==>
      SendText(caller, receivedUser, content, env, s).reply == BadRequest("received_user ID is required.")
    ensures caller.Some? && PresentId(receivedUser) && !PresentText(content) ==>
      SendText(caller, receivedUser, content, env, s).reply == BadRequest("Message content is required.")
    ensures caller.Some? && PresentId(receivedUser) && PresentText(content) && receivedUser.value !in env.directory ==>
      SendText(caller, receivedUser, content, env, s).reply.NotFound?
  {
  }

  /** A sent text message shows up, once, in the conversation history of
      its sender with its recipient, and is the only message the send adds
      to that history. */
  lemma SendTextThenHistory(caller: UserId, recipient: UserId, content: string, env: Env, s: Store)
    requires WellFormed(s)
    requires SendText(Some(caller), Some(recipient), Some(content), env, s).reply.Ok?
    ensures var out := SendText(Some(caller), Some(recipient), Some(content), env, s);
      var before := History(Some(caller), Some(NatToString(recipient)), env.directory, s);
      var h := History(Some(caller), Some(NatToString(recipient)), env.directory, out.store);
      && before.Ok? && h.Ok? && out.reply.body in h.body
      && (forall m :: m in h.body && m.id == out.reply.body.id ==> m == out.reply.body)
      && multiset(h.body) == multiset(before.body) + multiset{out.reply.body}
  {
    ParseNatToString(recipient);
    var out := SendText(Some(caller), Some(recipient), Some(content), env, s);
    var m := out.reply.body;
    var before := History(Some(caller), Some(NatToString(recipient)), env.directory, s);
    var h := History(Some(caller), Some(NatToString(recipient)), env.directory, out.store);
    assert m in out.store.messages;
    forall x | x in out.store.messages && x.id == m.id
      ensures x == m
    {
      var i :| 0 <= i < |out.store.messages| && out.store.messages[i] == x;
    }
    ConversationGrows(before.body, h.body, s.messages, m, caller, recipient);
  }

  /** Appending a message of the conversation adds exactly that message to
      anything that holds the conversation's messages as often as stored. */
  lemma ConversationGrows(h: seq<Message>, h': seq<Message>, ms: seq<Message>, m: Message, a: UserId, b: UserId)
    requires Between(m, a, b)
    requires forall x :: multiset(h)[x] == if Between(x, a, b) then multiset(ms)[x] else 0
    requires forall x :: multiset(h')[x] == if Between(x, a, b) then multiset(ms + [m])[x] else 0
    ensures multiset(h') == multiset(h) + multiset{m}
  {
    forall x
      ensures multiset(h')[x] == (multiset(h) + multiset{m})[x]
    {
      assert multiset(ms + [m])[x] == multiset(ms)[x] + multiset{m}[x];
    }
  }

  /** The recipient's sockets hear about a sent message through their
      personal room, whether or not they joined the conversation room; the
      sockets in the conversation room hear about it too. */
  lemma SendTextReachesRecipient(caller: UserId, recipient: UserId, content: string, env: Env, s: Store, h: Hub, sid: SocketId)
    requires env.io
    requires SendText(Some(caller), Some(recipient), Some(content), env, s).reply.Ok?
    requires sid in h.rooms && (UserRoom(recipient) in h.rooms[sid] || RoomByString(caller, recipient) in h.rooms[sid])
    ensures var out := SendText(Some(caller), Some(recipient), Some(content), env, s);
      exists e :: e in out.events && e.name == "new_message" && e.payload == NewMessage(out.reply.body) && sid in Recipients(h, e.room)
  {
    var out := SendText(Some(caller), Some(recipient), Some(content), env, s);
    var e0, e1 := out.events[0], out.events[1];
    if UserRoom(recipient) in h.rooms[sid] {
      assert sid in Recipients(h, e1.room);
    } else {
      assert sid in Recipients(h, e0.room);
    }
  }

  /** After mark-as-read the caller's conversation list reports no unread
      message from the other user. */
  lemma MarkAsReadClearsCount(reader: UserId, other: UserId, env: Env, s: Store)
    requires other != 0
    ensures var out := MarkAsRead(Some(reader), Some(other), env, s);
      var list := ChatUsers(Some(reader), out.store);
      list.Ok? && forall i :: 0 <= i < |list.body| && list.body[i].user == other ==> list.body[i].unreadCount == 0
  {
    var out := MarkAsRead(Some(reader), Some(other), env, s);
    MarkReadClears(s.messages, other, reader);
    UnreadCountZero(out.store.messages, reader, other);
  }

  /** Mark-as-read twice leaves the store as once, and emits the same
      notification again even though nothing changed the second time. */
  lemma MarkAsReadIdempotent(reader: UserId, other: UserId, env: Env, s: Store)
    requires other != 0
    ensures var once := MarkAsRead(Some(reader), Some(other), env, s);
      var twice := MarkAsRead(Some(reader), Some(other), env, once.store);
      twice.store == once.store && twice.events == once.events && twice.reply == once.reply
  {
    MarkReadIdempotent(s.messages, other, reader);
  }

  /** The preview of a message in the conversation list keeps its
      duration only when positive: 12 stays 12, 0 becomes null. */
  lemma VoiceDurationPreview(m: Message)
    ensures m.duration == Some(12) ==> Preview(m).duration == Some(12)
    ensures m.duration == Some(0) ==> Preview(m).duration.None?
    ensures m.duration.None? ==> Preview(m).duration.None?
  {
  }
}
