# Direct-messaging engine of chato-strapi-api, modelled in Dafny

This project models the message engine of a Strapi direct-messaging backend:

- the message controller: send text (`create`), send voice (`voice`),
  mark as read, conversation history, own messages, and the conversation
  list (`getChatUsers`);
- the Socket.IO hub set up at bootstrap: the token gate on the handshake,
  the automatic join of the personal room `user_<id>`, and the
  `join_user_room`, `join_room` and `leave_room` handlers.

The message collection is an in-memory `seq<Message>`. Strapi's
`findMany` filters and sorts become pure functions on that sequence,
`updateMany` becomes a map over it, and `entityService.create` becomes an
append. The actions that write (`create`, `voice`, mark as read) return an
`Outcome`: the HTTP reply, the store afterwards, and the events they
emitted, in order. The read-only actions (history, own messages, the
conversation list) return the HTTP reply alone. An event is a room,
an event name and a payload. The hub is a map from socket to user and a map
from socket to the set of rooms it is in. An emitted event reaches the
sockets that are in its room at that moment.

Modules:

- `Basics`: `Option` and JavaScript truthiness of id and text fields.
- `Decimal`: `String(n)`, its inverse, and the character order that stands
  for `Array.prototype.sort` without a comparator on the digit texts of ids.
- `Rooms`: conversation room names and personal room names.
- `MessageStore`: messages, the store, its queries, the stable sort on
  `createdAt`, and the bulk mark-as-read.
- `IntKeyed`: a JavaScript object keyed by integer ids. Such keys are
  enumerated in ascending order, so it is held as a key-sorted list.
- `ConversationIndex`: the `getChatUsers` fold and its correctness.
- `Realtime`: the Socket.IO hub.
- `MessageService`: the controller actions.
- `Scenarios`: users 5 and 9 exchange three messages, then one marks them
  read.

Behaviour of the code that a reader might not expect, and that the model
keeps:

- The text path (`getConversationRoomId`) sorts the two ids as strings, so
  ids 9 and 10 give `conversation_10_9`. Only the voice path uses the
  numeric minimum and maximum and gives `conversation_9_10`.
  `Rooms.RoomRulesDisagree` shows the two rules differ, and
  `Rooms.RoomRulesAgreeOnSameDigitCount` shows they agree when both ids
  have the same number of digits.
- The conversation list is ordered by the enumeration order of an object
  keyed by ids, which is ascending counterpart id, not by recency.
- `voice` does not look the recipient up before it creates the message. It
  does not test for a logged-in caller either: with no caller, the request
  fails with 500 after the upload. What the store then does with a
  recipient id that names no user is not modelled (see `MessageService.SendVoice`
  under "Left out").
- `voice` stores whatever duration it is sent. Only the conversation list
  turns a duration that is not positive into null.
- Self-messaging is not rejected. A message to oneself counts as unread in
  one's own conversation with oneself.

## Model

| member | source | states |
|---|---|---|
| `Rooms.UserRoom` | src/index.js:60 | a personal room is `user_` followed by text that parses back to the user's id, so distinct users have distinct rooms |
| `Basics.PresentId` | src/api/message/controllers/message.js:198 | an id field passes a truthiness test exactly when it is present and at least 1 |
| `Basics.PresentText` | src/api/message/controllers/message.js:201 | a text field passes a truthiness test exactly when it is present and non-empty |
| `Rooms.RoomByString` | src/api/message/controllers/message.js:12-15 | the text-path room is `conversation_<x>_<y>` with x, y the two ids in one order or the other |
| `Rooms.RoomByStringSymmetric` | src/api/message/controllers/message.js:12-15 | both users of a pair compute the same text-path room, because distinct ids have distinct texts and exactly one text sorts first |
| `Rooms.RoomByNumber` | src/api/message/controllers/message.js:377 | the voice-path room is `conversation_<min>_<max>` of the two ids |
| `Rooms.RoomByNumberSymmetric` | src/api/message/controllers/message.js:377 | both users of a pair compute the same voice-path room |
| `Rooms.RoomRulesAgreeOnSameDigitCount` | src/api/message/controllers/message.js:13-14 | when the two ids have equally many digits, string sorting and min/max name the same room |
| `Rooms.RoomRulesDisagree` | src/api/message/controllers/message.js:377 | for ids 9 and 10 the text path names `conversation_10_9` and the voice path names `conversation_9_10` |
| `Decimal.NatToString` | src/api/message/controllers/message.js:14 | an id prints as canonical decimal text, one digit exactly for ids below 10 |
| `Decimal.ParseNat` | src/api/message/controllers/message.js:136-139 | a route parameter is a number exactly when it is non-empty and all digits |
| `Decimal.ParseNatToString` | src/api/message/controllers/message.js:136 | parsing the text of an id gives the id back |
| `Decimal.NatToStringOfValue` | src/api/message/controllers/message.js:136 | printing the value of canonical digit text gives the text back |
| `Decimal.NatToStringInjective` | src/api/message/controllers/message.js:14 | two ids have the same text exactly when they are equal |
| `Decimal.ValueOfNatToString` | src/api/message/controllers/message.js:14 | the decimal digits of an id's text denote that id |
| `Decimal.LexLessTrichotomy` | src/api/message/controllers/message.js:13 | the default sort order puts exactly one of two different strings first, and never orders a string before itself |
| `Decimal.LexLess` | src/api/message/controllers/message.js:13 | the default sort order on BMP text such as digit texts: no string is before itself, a proper prefix comes first, and otherwise the first differing character decides |
| `Decimal.LexLessSnoc` | src/api/message/controllers/message.js:13 | for strings of equal length, adding one more character orders first by the prefixes and then by the added unit |
| `Decimal.SameLengthOrder` | src/api/message/controllers/message.js:13 | for ids with equally long texts the string order is the numeric order |
| `MessageStore.Create` | src/api/message/controllers/message.js:212-226 | creating appends exactly one unread message with the next id and the given time, and keeps ids unique |
| `MessageStore.Where` | src/api/message/controllers/message.js:59-65 | a query filter keeps each message that satisfies it, exactly as many times as it is stored, and no other |
| `MessageStore.WhereConcat` | src/api/message/controllers/message.js:31-42 | filtering the concatenation of two lists is filtering each in turn, so the stored order is kept |
| `MessageStore.SortedCons` | src/api/message/controllers/message.js:70 | a head that may precede every element of a sorted tail keeps the order sorted |
| `MessageStore.InsertBy` | src/api/message/controllers/message.js:70 | inserting into a `createdAt`-sorted list keeps it sorted and adds exactly that message |
| `MessageStore.SortBy` | src/api/message/controllers/message.js:171 | the `createdAt` sort returns a sorted permutation of its input |
| `MessageStore.MarkRead` | src/api/message/controllers/message.js:262-271 | the bulk update keeps length and position and flips `isRead` only on unread rows from the other user to the caller |
| `MessageStore.MarkOne` | src/api/message/controllers/message.js:262-271 | one row update leaves no matching unread row, sets `isRead` exactly on a row that was read or matched, and changes no other field |
| `MessageStore.MarkReadClears` | src/api/message/controllers/message.js:262-271 | afterwards no message from the other user to the caller is unread |
| `MessageStore.MarkReadIdempotent` | src/api/message/controllers/message.js:262-271 | a second bulk update leaves the store as the first one did |
| `MessageStore.MarkReadMonotone` | src/api/message/controllers/message.js:262-271 | no read message becomes unread, and every field other than `isRead` is unchanged |
| `MessageStore.UnreadCountConcat` | src/api/message/controllers/message.js:96-102 | the unread count of two concatenated lists is the sum of their counts |
| `MessageStore.UnreadCount` | src/api/message/controllers/message.js:96-102 | the count is at most the number of messages, and positive exactly when some message from that counterpart to the caller is unread |
| `MessageStore.UnreadCountZero` | src/api/message/controllers/message.js:96-102 | the unread count is zero exactly when no message from that counterpart to the caller is unread |
| `MessageStore.UnreadCountInsert` | src/api/message/controllers/message.js:70 | inserting a message into a sorted list adds its own unread count |
| `MessageStore.UnreadCountSort` | src/api/message/controllers/message.js:70 | sorting does not change the unread count |
| `MessageStore.UnreadCountInvolving` | src/api/message/controllers/message.js:59-65 | restricting to the caller's messages keeps every unread message addressed to the caller |
| `IntKeyed.Get` | src/api/message/controllers/message.js:83 | a key has a value exactly when it is one of the object's keys |
| `IntKeyed.Put` | src/api/message/controllers/message.js:84 | setting a key keeps keys in ascending order and adds just that key |
| `IntKeyed.PutGet` | src/api/message/controllers/message.js:83-101 | after setting a key, that key reads the new value and every other key reads what it did before |
| `IntKeyed.OrderedAscending` | src/api/message/controllers/message.js:106 | entries enumerate in strictly ascending key order, and each entry is what its key reads |
| `IntKeyed.Values` | src/api/message/controllers/message.js:106 | `Object.values` lists the values in entry order |
| `ConversationIndex.NormalizeDuration` | src/api/message/controllers/message.js:88 | a preview keeps the duration exactly when it is present and positive, and is null otherwise |
| `ConversationIndex.Preview` | src/api/message/controllers/message.js:86-90 | the preview carries the message's content and time and its normalised duration |
| `ConversationIndex.Counterpart` | src/api/message/controllers/message.js:77-81 | the counterpart is the recipient of the caller's own messages and the sender otherwise, and is missing when that id is absent |
| `ConversationIndex.Open` | src/api/message/controllers/message.js:83-93 | opening a conversation creates the counterpart's entry with the preview and count 0 only when it is absent, and touches no other entry |
| `ConversationIndex.Bump` | src/api/message/controllers/message.js:101 | incrementing adds one to that counterpart's count and touches no other entry |
| `ConversationIndex.Index` | src/api/message/controllers/message.js:75-103 | the fold over the messages keeps the conversations object in ascending key order |
| `ConversationIndex.Absorb` | src/api/message/controllers/message.js:76-102 | one `forEach` step skips a message without a counterpart, adds the counterpart to the keys otherwise, and leaves every other counterpart's entry unchanged |
| `ConversationIndex.FirstExists` | src/api/message/controllers/message.js:76-93 | a counterpart that occurs has a first occurrence |
| `ConversationIndex.CountedHasCounterpart` | src/api/message/controllers/message.js:96-100 | an unread message counted for a counterpart belongs to that counterpart's conversation, even for a message to oneself |
| `ConversationIndex.NoOccurrenceNoUnread` | src/api/message/controllers/message.js:96-100 | without a message of that counterpart there is nothing to count |
| `ConversationIndex.AbsorbKeys` | src/api/message/controllers/message.js:81-93 | one step adds the message's counterpart, if it has one, to the keys |
| `ConversationIndex.AbsorbOther` | src/api/message/controllers/message.js:81-102 | one step leaves other counterparts' entries unchanged |
| `ConversationIndex.AbsorbSame` | src/api/message/controllers/message.js:83-102 | one step keeps an existing entry's preview and counts the message if unread, or opens the entry with this message's preview |
| `ConversationIndex.AbsorbKeepsEntry` | src/api/message/controllers/message.js:83-102 | once a counterpart has an entry, later messages never change its preview and add exactly their unread count |
| `ConversationIndex.OccursSnoc` | src/api/message/controllers/message.js:76 | a counterpart occurs in a list with one more message exactly when it occurs before or in that message |
| `ConversationIndex.IndexKeys` | src/api/message/controllers/message.js:76-93 | the object's keys are exactly the counterparts that occur, so messages without a counterpart are skipped |
| `ConversationIndex.IndexEntryFirst` | src/api/message/controllers/message.js:83-102 | the first message of a counterpart opens its entry with that message's preview and its own unread count |
| `ConversationIndex.IndexEntry` | src/api/message/controllers/message.js:76-103 | for any input order, a counterpart's entry holds the preview of its first message and the exact count of its unread messages to the caller |
| `ConversationIndex.ChatFeed` | src/api/message/controllers/message.js:59-72 | the folded feed holds the caller's messages, newest first |
| `ConversationIndex.FeedMembers` | src/api/message/controllers/message.js:59-65 | a stored message is in the feed exactly when it involves the caller |
| `ConversationIndex.EntryFacts` | src/api/message/controllers/message.js:83-106 | every listed entry is the summary of its own key |
| `ConversationIndex.ChatListUnread` | src/api/message/controllers/message.js:96-102 | each listed unread count equals the number of stored unread messages from that counterpart to the caller |
| `ConversationIndex.ChatList` | src/api/message/controllers/message.js:106 | the conversation list names each counterpart once, in ascending id order |
| `ConversationIndex.FirstIsNewest` | src/api/message/controllers/message.js:70-93 | in the newest-first feed, the first message of a counterpart is no older than any other message with that counterpart |
| `ConversationIndex.ChatListNewest` | src/api/message/controllers/message.js:70-93 | each listed preview is that of a newest stored message of the conversation |
| `ConversationIndex.ChatListCoverage` | src/api/message/controllers/message.js:76-106 | a counterpart is listed exactly when some stored message between it and the caller names it |
| `Realtime.Connect` | src/index.js:23-39 | a missing, empty or unverifiable token fails with "Authentication error" and leaves the hub as it was; an accepted socket is recorded as the decoded user, and every other socket keeps its user and its rooms |
| `Realtime.Recipients` | src/api/message/controllers/message.js:234-237 | an event reaches exactly the sockets in its room, and only sockets that passed the token gate |
| `Realtime.Handle` | src/index.js:45-64 | join adds exactly the named room, leave removes exactly it, disconnect drops the socket, and every other socket keeps its user and its rooms |
| `Realtime.ConnectJoinsPersonalRoom` | src/index.js:60 | an accepted socket is in `user_<id>` alone and receives what is emitted there |
| `Realtime.RejectedJoinsNothing` | src/index.js:24-38 | a rejected handshake leaves the hub as it was, so the socket is recorded as no user and receives nothing in any room |
| `Realtime.JoinIdempotent` | src/index.js:45-52 | joining twice equals joining once, and the two join requests act the same |
| `Realtime.LeaveAbsentRoom` | src/index.js:54-56 | leaving a room the socket is not in changes nothing |
| `Realtime.PersonalRoomCanBeLeft` | src/index.js:54-60 | leave has no guard, so a socket can leave its own `user_<id>` room and stop receiving it |
| `Realtime.DisconnectedReceivesNothing` | src/index.js:62-64 | a disconnected socket receives no event |
| `MessageService.SendText` | src/api/message/controllers/message.js:189-247 | success requires caller, recipient id, content and a known recipient; a failure changes nothing; success appends one unread text message from the caller and emits `new_message` to the text-path room and to `user_<recipient>`, or emits nothing without `io` |
| `MessageService.SendTextGuardOrder` | src/api/message/controllers/message.js:191-210 | the checks run in the order 401, 400 for the recipient, 400 for the content, then 404 |
| `MessageService.SendTextThenHistory` | src/api/message/controllers/message.js:212-226 | the sent message appears in the sender's history with the recipient; no other message there has its id, and the history afterwards is the history before plus exactly that one message |
| `MessageService.SendTextReachesRecipient` | src/api/message/controllers/message.js:229-237 | a socket in the recipient's personal room or in the conversation room receives the `new_message` event |
| `MessageService.Announce` | src/api/message/controllers/message.js:229-237 | with `io`, two `new_message` emits carrying the message, to the conversation room and then to `user_<recipient>`; without `io`, none |
| `MessageService.SendVoice` | src/api/message/controllers/message.js:315-390 | the guards are multipart, recipient id, file and upload, then a caller (500 when missing); success appends one unread voice message whose content is the upload URL and emits to the voice-path room and to `user_<recipient>` |
| `MessageService.MarkAsRead` | src/api/message/controllers/message.js:249-285 | a missing caller gets 401, then a missing `otherUserId` gets 400, and either changes nothing; success applies the bulk update and always emits one `messages_read` with the reader's id to `user_<other>` when `io` is set |
| `MessageService.MarkAsReadClearsCount` | src/api/message/controllers/message.js:262-271 | after mark-as-read the reader's list shows count 0 for the other user |
| `MessageService.MarkAsReadIdempotent` | src/api/message/controllers/message.js:262-278 | a second mark-as-read leaves the store as the first and emits the same notification again |
| `MessageService.History` | src/api/message/controllers/message.js:121-181 | it replies 401, 400, 400 or 404 in that order; on success it returns both directions of the conversation, oldest first, each stored message of the conversation exactly once as often as stored, and nothing else |
| `MessageService.OwnMessages` | src/api/message/controllers/message.js:19-46 | it replies 401 without a caller; otherwise it returns the messages the caller sent, each as often as it is stored, and nothing else |
| `MessageService.ChatUsers` | src/api/message/controllers/message.js:50-114 | it replies 401 without a caller; otherwise it lists counterparts in ascending id with exact unread counts |
| `MessageService.VoiceDurationPreview` | src/api/message/controllers/message.js:88 | a message of duration 12, such as a stored voice message, previews with 12; one of duration 0 or none previews with null |
| `Scenarios.Exchange` | src/api/message/controllers/message.js:189-247 | three accepted sends store the three messages in order with ids 1 to 3 |
| `Scenarios.FiveAndNineList` | src/api/message/controllers/message.js:50-114 | after 5→9 "a", 9→5 "b", 5→9 "c", user 9 has one conversation, with 5, whose last message is "c" and whose count is 2 |
| `Scenarios.ExchangeNewest` | src/api/message/controllers/message.js:70 | of the three messages, "c" is the one newest message between 5 and 9 |
| `Scenarios.ExchangeUnread` | src/api/message/controllers/message.js:96-102 | two of the three messages are unread messages from 5 to 9 |
| `Scenarios.FiveAndNineRead` | src/api/message/controllers/message.js:249-285 | after 9 marks the conversation with 5 read, 9's count for 5 is 0 |
| `Scenarios.OnlyCounterpart` | src/api/message/controllers/message.js:76-106 | when every message is between the caller and one counterpart, the list has exactly that one summary |

## Left out

- src/api/message/routes/message.js is a static route table. Its
  `auth.required` flags are modelled only as the caller being present or
  absent.
- src/extensions/users-permissions/strapi-server.js is not part of this
  model. It reshapes responses of plugin controllers that are not shown.
- `getAllLoginUsers` is not modelled. It passes the user directory through.
- JWT cryptography: `jwt.verify` with the secret is the parameter `verify`.
  The decoded payload is reduced to the user id.
- Socket.IO server construction, CORS and the connect/disconnect logging are
  left out. So is the room Socket.IO creates for each socket's own id.
- Media upload is not modelled. Its answer is the input `uploaded`: a URL,
  or `None` when no file came back. A missing `ctx.request.files` (a
  TypeError outside the `try`) is not modelled either.
- Multipart detection (`ctx.is('multipart')`) is the boolean input
  `multipart`.
- The clock is the `now` field of `Env`. `createdAt` values are given
  integers.
- Emits are an event log plus room membership at emit time. Network
  delivery, acknowledgements and loss are not modelled.
- Store and database faults, and the 500 replies they cause, are not
  modelled. The store never fails. The one 500 that is modelled is a voice
  request without a caller.
- Populated user profiles (`username`, `email`) are not modelled. A
  relation is the user's id, or `None` when it resolves to no user. A
  summary's `user` is the counterpart id.
- Request fields are typed. Ids are natural numbers and content is text.
  The voice form sends `received_user` as text, where "0" is truthy. The
  model treats 0 as absent on both paths.
- Durations are integers or absent. The voice form passes `duration` to
  `create` as the text it was sent, and the conversation list compares it
  with 0 as whatever type the schema stores. That schema type, its
  coercion, and fractional or non-numeric durations are not modelled.
- `parseInt` is modelled only on plain digit text. A route parameter such as
  "12abc" or " 12" is treated as not a number, although `parseInt` reads 12.
  Signed text is not a number either: "-5" gets 400 in the model, where
  `parseInt` reads -5 and the lookup replies 404; "+7" gets 400 in the
  model, where `parseInt` reads 7.
- JavaScript enumerates integer keys in ascending order only up to
  2^32 - 2. Larger ids, which enumerate in insertion order, are not
  modelled.
- Concurrency between requests is not modelled. Each action is atomic over
  the store.
- `MessageService.SendVoice`: a recipient id outside the user directory is
  stored as given, as `Some(id)`, and then shows up in the sender's
  conversation list. The source hands that id to `entityService.create`
  unchecked. The store might reject the missing relation, which gives the
  500 of the catch block with no emit. Or it might store a relation that
  populates to null, which `getChatUsers` skips. That relation handling
  belongs to the database layer and is not modelled.
- `MessageStore.MarkRead`: the model assumes that the `filters` object
  passed to `strapi.db.query(...).updateMany` restricts the update to
  unread rows from the other user to the caller. The query engine's
  row-selection parameter is documented as `where`. If `filters` were
  ignored, every stored message would be marked read, and
  `MarkReadMonotone`'s "every other row is unchanged" would not hold for the
  program. The engine's handling of that parameter is not part of this
  model.
- `Decimal.LexLess`: it compares Unicode scalar values, while JavaScript's
  default sort compares UTF-16 code units. The two orders differ only on
  characters outside the Basic Multilingual Plane, and the model sorts
  only decimal digit texts.
- `MessageStore.SortBy`: the contract states sortedness and permutation, but
  not that equal timestamps keep stored order. The database's order for
  equal timestamps is unspecified.
- `ConversationIndex.ChatListNewest`: it states that the preview is that of a
  newest message of the conversation. When several messages share the
  newest timestamp, it does not say which one.
