/** A worked exchange between users 5 and 9, stated through the general
    theorems about the actions. */
module Scenarios {
  import opened Basics
  import opened MessageStore
  import opened ConversationIndex
  import opened MessageService

  /** The store after 5 sends "a" to 9, 9 sends "b" to 5, and 5 sends "c"
      to 9, at times 1, 2 and 3, all accepted. */
  function Exchange(dir: set<UserId>): (s: Store)
    requires 5 in dir && 9 in dir
    ensures |s.messages| == 3
    ensures s.messages[0] == Message(1, Some(5), Some(9), "a", Text, None, false, 1)
    ensures s.messages[1] == Message(2, Some(9), Some(5), "b", Text, None, false, 2)
    ensures s.messages[2] == Message(3, Some(5), Some(9), "c", Text, None, false, 3)
  {
    var o1 := SendText(Some(5), Some(9), Some("a"), Env(dir, true, 1), Store([], 1));
    var o2 := SendText(Some(9), Some(5), Some("b"), Env(dir, true, 2), o1.store);
    var o3 := SendText(Some(5), Some(9), Some("c"), Env(dir, true, 3), o2.store);
    o3.store
  }

  /** User 9's conversation list holds one conversation, with 5; its last
      message is "c", and both "a" and "c" count as unread. */
  lemma FiveAndNineList(dir: set<UserId>)
    requires 5 in dir && 9 in dir
    ensures var list := ChatUsers(Some(9), Exchange(dir));
      && list.Ok? && |list.body| == 1 && list.body[0].user == 5
      && list.body[0].lastMessage.content == "c" && list.body[0].unreadCount == 2
  {
    var ms := Exchange(dir).messages;
    assert forall m :: m in ms ==> m == ms[0] || m == ms[1] || m == ms[2];
    OnlyCounterpart(ms, 9, 5);
    ChatListNewest(ms, 9, 0);
    var m :| IsNewest(ms, 9, 5, m) && ChatList(ms, 9)[0].lastMessage == Preview(m);
    ExchangeNewest(dir, m);
    ChatListUnread(ms, 9);
    ExchangeUnread(dir);
  }

  /** "c", the last message sent, is the one newest message between 5 and
      9. */
  lemma ExchangeNewest(dir: set<UserId>, m: Message)
    requires 5 in dir && 9 in dir
    requires IsNewest(Exchange(dir).messages, 9, 5, m)
    ensures m == Exchange(dir).messages[2]
  {
    var ms := Exchange(dir).messages;
    assert ms[2] in ms;
    assert forall x :: x in ms ==> x == ms[0] || x == ms[1] || x == ms[2];
  }

  /** Two of the three messages, "a" and "c", are unread messages from 5
      to 9. */
  lemma ExchangeUnread(dir: set<UserId>)
    requires 5 in dir && 9 in dir
    ensures UnreadCount(Exchange(dir).messages, 9, 5) == 2
  {
    var ms := Exchange(dir).messages;
    assert ms == [ms[0]] + [ms[1]] + [ms[2]];
    UnreadCountConcat([ms[0]] + [ms[1]], [ms[2]], 9, 5);
    UnreadCountConcat([ms[0]], [ms[1]], 9, 5);
  }

  /** After 9 marks the conversation with 5 read, the count drops to 0. */
  lemma FiveAndNineRead(dir: set<UserId>)
    requires 5 in dir && 9 in dir
    ensures var read := MarkAsRead(Some(9), Some(5), Env(dir, true, 4), Exchange(dir));
      var list := ChatUsers(Some(9), read.store);
      && list.Ok? && |list.body| == 1 && list.body[0].unreadCount == 0
  {
    var s := Exchange(dir);
    var read := MarkAsRead(Some(9), Some(5), Env(dir, true, 4), s);
    var ms' := read.store.messages;
    assert forall m :: m in ms' ==> m == ms'[0] || m == ms'[1] || m == ms'[2];
    OnlyCounterpart(ms', 9, 5);
    MarkAsReadClearsCount(9, 5, Env(dir, true, 4), s);
  }

  /** When every stored message is between `u` and `c`, the list of `u` has
      exactly one summary, that of `c`. */
  lemma OnlyCounterpart(ms: seq<Message>, u: UserId, c: UserId)
    requires |ms| > 0
    requires forall m :: m in ms ==> Involves(m, u) && Counterpart(m, u) == Some(c)
    ensures |ChatList(ms, u)| == 1 && ChatList(ms, u)[0].user == c
  {
    var rs := ChatList(ms, u);
    assert ms[0] in ms;
    ChatListCoverage(ms, u, c);
    forall i | 0 <= i < |rs|
      ensures rs[i].user == c
    {
      ChatListCoverage(ms, u, rs[i].user);
    }
  }
}
