/** The conversation list of `getChatUsers`: one fold over the caller's
    messages, newest first, that keeps per counterpart the first message
    seen and counts the unread messages that counterpart sent. */
module ConversationIndex {
  import opened Basics
  import opened MessageStore
  import opened IntKeyed

  /** The `lastMessage` preview of a summary. */
  datatype LastMessage = LastMessage(content: string, duration: Option<int>, createdAt: int)

  /** One conversation: the counterpart, the newest message, the unread
      count. */
  datatype Summary = Summary(user: UserId, lastMessage: LastMessage, unreadCount: nat)

  /** `duration > 0 ? duration : null`: a stored duration survives only
      when positive. */
  function NormalizeDuration(d: Option<int>): (r: Option<int>)
    ensures r.Some? <==> d.Some? && d.value > 0
    ensures r.Some? ==> r == d
  {
    if d.Some? && d.value > 0 then d else None
  }

  function Preview(m: Message): (p: LastMessage)
    ensures p.content == m.content && p.createdAt == m.createdAt
    ensures p.duration == NormalizeDuration(m.duration)
  {
    LastMessage(m.content, NormalizeDuration(m.duration), m.createdAt)
  }

  /** `otherUserId`: the recipient when the caller sent the message, the
      sender otherwise; `None` when that id is missing (or 0), in which case
      the message is skipped. */
  function Counterpart(m: Message, u: UserId): (r: Option<UserId>)
    ensures r.Some? ==> r.value != 0
    ensures r.Some? && m.sender == Some(u) ==> m.recipient == r
    ensures r.Some? && m.sender != Some(u) ==> m.sender == r
    ensures r.None? ==> !PresentId(if m.sender == Some(u) then m.recipient else m.sender)
  {
    var other := if m.sender == Some(u) then m.recipient else m.sender;
    if PresentId(other) then other else None
  }

  /** `if (!conversations[c]) conversations[c] = {...}`: opens the entry of
      `c` with the preview of `m` and no unread message, unless it exists. */
  function Open(o: Obj<Summary>, c: UserId, m: Message): (r: Obj<Summary>)
    requires Ordered(o)
    ensures Ordered(r)
    ensures Keys(r) == Keys(o) + {c}
    ensures Get(o, c).Some? ==> Get(r, c) == Get(o, c)
    ensures Get(o, c).None? ==> Get(r, c) == Some(Summary(c, Preview(m), 0))
    ensures forall k :: k != c ==> Get(r, k) == Get(o, k)
  {
    var v := Summary(c, Preview(m), 0);
    assert forall k :: Get(Put(o, c, v), k) == if k == c then Some(v) else Get(o, k) by {
      forall k
        ensures Get(Put(o, c, v), k) == if k == c then Some(v) else Get(o, k)
      {
        PutGet(o, c, v, k);
      }
    }
    if Get(o, c).Some? then o else Put(o, c, v)
  }

  /** `conversations[c].unreadCount += 1`. */
  function Bump(o: Obj<Summary>, c: UserId): (r: Obj<Summary>)
    requires Ordered(o) && c in Keys(o)
    ensures Ordered(r)
    ensures Keys(r) == Keys(o)
    ensures Get(r, c) == Some(Get(o, c).value.(unreadCount := Get(o, c).value.unreadCount + 1))
    ensures forall k :: k != c ==> Get(r, k) == Get(o, k)
  {
    var v := Get(o, c).value.(unreadCount := Get(o, c).value.unreadCount + 1);
    assert forall k :: Get(Put(o, c, v), k) == if k == c then Some(v) else Get(o, k) by {
      forall k
        ensures Get(Put(o, c, v), k) == if k == c then Some(v) else Get(o, k)
      {
        PutGet(o, c, v, k);
      }
    }
    Put(o, c, v)
  }

  /** One `forEach` step over `conversations`: a message without a
      counterpart is skipped; otherwise only its counterpart's entry may
      change. */
  function Absorb(o: Obj<Summary>, m: Message, u: UserId): (r: Obj<Summary>)
    requires Ordered(o)
    ensures Ordered(r)
    ensures Counterpart(m, u).None? ==> r == o
    ensures Counterpart(m, u).Some? ==> Keys(r) == Keys(o) + {Counterpart(m, u).value}
    ensures forall k: nat :: Counterpart(m, u) != Some(k) ==> Get(r, k) == Get(o, k)
  {
    match Counterpart(m, u)
    case None => o
    case Some(c) =>
      var o1 := Open(o, c, m);
      if UnreadFromTo(m, c, u) then Bump(o1, c) else o1
  }

  /** The fold over the messages in the order the query returned them. The
      query only returns messages that involve the caller, which is what
      keeps line 97 from dereferencing a missing recipient. */
  function Index(ms: seq<Message>, u: UserId): (r: Obj<Summary>)
    requires forall i :: 0 <= i < |ms| ==> Involves(ms[i], u)
    ensures Ordered(r)
    decreases |ms|
  {
    if |ms| == 0 then []
    else Absorb(Index(ms[..|ms| - 1], u), ms[|ms| - 1], u)
  }

  /** Some message of `ms` has counterpart `c`. */
  predicate Occurs(ms: seq<Message>, u: UserId, c: UserId)
  {
    exists i :: 0 <= i < |ms| && Counterpart(ms[i], u) == Some(c)
  }

  /** `i` is the first position of `ms` whose counterpart is `c`. */
  predicate IsFirst(ms: seq<Message>, u: UserId, c: UserId, i: int)
  {
    && 0 <= i < |ms|
    && Counterpart(ms[i], u) == Some(c)
    && forall j :: 0 <= j < i ==> Counterpart(ms[j], u) != Some(c)
  }

  lemma {:induction false} FirstExists(ms: seq<Message>, u: UserId, c: UserId)
    requires Occurs(ms, u, c)
    ensures exists i :: IsFirst(ms, u, c, i)
    decreases |ms|
  {
    if Counterpart(ms[0], u) != Some(c) {
      var k :| 0 <= k < |ms| && Counterpart(ms[k], u) == Some(c);
      assert Counterpart(ms[1..][k - 1], u) == Some(c);
      FirstExists(ms[1..], u, c);
      var i :| IsFirst(ms[1..], u, c, i);
      assert IsFirst(ms, u, c, i + 1);
    } else {
      assert IsFirst(ms, u, c, 0);
    }
  }

  /** A message counted as unread for `c` has counterpart `c`, even when the
      caller wrote to themself. */
  lemma CountedHasCounterpart(m: Message, u: UserId, c: UserId)
    requires c != 0 && UnreadFromTo(m, c, u)
    ensures Counterpart(m, u) == Some(c)
  {
  }

  lemma {:induction false} NoOccurrenceNoUnread(ms: seq<Message>, u: UserId, c: UserId)
    requires c != 0 && !Occurs(ms, u, c)
    ensures UnreadCount(ms, u, c) == 0
    decreases |ms|
  {
    if |ms| > 0 {
      if UnreadFromTo(ms[0], c, u) {
        CountedHasCounterpart(ms[0], u, c);
        assert false;
      }
      assert forall i :: 0 <= i < |ms[1..]| ==> ms[1..][i] == ms[i + 1];
      NoOccurrenceNoUnread(ms[1..], u, c);
    }
  }

  /** One step adds the message's counterpart, if any, to the keys. */
  lemma AbsorbKeys(o: Obj<Summary>, m: Message, u: UserId)
    requires Ordered(o)
    ensures Keys(Absorb(o, m, u)) == Keys(o) + (if Counterpart(m, u).Some? then {Counterpart(m, u).value} else {})
  {
  }

  /** One step leaves the entries of other counterparts alone. */
  lemma AbsorbOther(o: Obj<Summary>, m: Message, u: UserId, c: UserId)
    requires Ordered(o) && Counterpart(m, u) != Some(c)
    ensures Get(Absorb(o, m, u), c) == Get(o, c)
  {
  }

  /** One step on a message of counterpart `c` opens its entry if needed
      and counts the message if it is unread and from `c`. */
  lemma AbsorbSame(o: Obj<Summary>, m: Message, u: UserId, c: UserId)
    requires Ordered(o) && Counterpart(m, u) == Some(c)
    ensures Get(o, c).Some? ==>
      Get(Absorb(o, m, u), c) ==
        Some(Get(o, c).value.(unreadCount := Get(o, c).value.unreadCount + UnreadCount([m], u, c)))
    ensures Get(o, c).None? ==>
      Get(Absorb(o, m, u), c) == Some(Summary(c, Preview(m), UnreadCount([m], u, c)))
  {
    assert UnreadCount([m], u, c) == (if UnreadFromTo(m, c, u) then 1 else 0);
  }

  lemma OccursSnoc(p: seq<Message>, m: Message, u: UserId, c: UserId)
    ensures Occurs(p + [m], u, c) <==> Occurs(p, u, c) || Counterpart(m, u) == Some(c)
  {
    var ms := p + [m];
    if Occurs(ms, u, c) && Counterpart(m, u) != Some(c) {
      var k :| 0 <= k < |ms| && Counterpart(ms[k], u) == Some(c);
      assert k < |p| && Counterpart(p[k], u) == Some(c);
    }
    if Occurs(p, u, c) {
      var k :| 0 <= k < |p| && Counterpart(p[k], u) == Some(c);
      assert Counterpart(ms[k], u) == Some(c);
    }
    assert ms[|p|] == m;
  }

  /** The keys of the fold are exactly the counterparts that occur: a
      message without a counterpart opens no conversation. */
  lemma {:induction false} IndexKeys(ms: seq<Message>, u: UserId, c: UserId)
    requires forall i :: 0 <= i < |ms| ==> Involves(ms[i], u)
    ensures c in Keys(Index(ms, u)) <==> Occurs(ms, u, c)
    decreases |ms|
  {
    if |ms| > 0 {
      var p, m := ms[..|ms| - 1], ms[|ms| - 1];
      assert ms == p + [m];
      IndexKeys(p, u, c);
      AbsorbKeys(Index(p, u), m, u);
      OccursSnoc(p, m, u, c);
    }
  }

  /** Once counterpart `c` has an entry, a step keeps its preview and adds
      the message to the count if it is unread and from `c`. */
  lemma AbsorbKeepsEntry(o: Obj<Summary>, m: Message, u: UserId, c: UserId, pv: LastMessage, k: nat)
    requires Ordered(o) && c != 0
    requires Get(o, c) == Some(Summary(c, pv, k))
    ensures Get(Absorb(o, m, u), c) == Some(Summary(c, pv, k + UnreadCount([m], u, c)))
  {
    if Counterpart(m, u) == Some(c) {
      AbsorbSame(o, m, u, c);
    } else {
      AbsorbOther(o, m, u, c);
      if UnreadFromTo(m, c, u) {
        CountedHasCounterpart(m, u, c);
      }
    }
  }

  /** Step case of `IndexEntry` when the last message is the first of
      counterpart `c`. */
  lemma IndexEntryFirst(p: seq<Message>, m: Message, u: UserId, c: UserId)
    requires forall k :: 0 <= k < |p| ==> Involves(p[k], u)
    requires Counterpart(m, u) == Some(c) && !Occurs(p, u, c)
    ensures Get(Absorb(Index(p, u), m, u), c) == Some(Summary(c, Preview(m), UnreadCount(p + [m], u, c)))
  {
    UnreadCountConcat(p, [m], u, c);
    IndexKeys(p, u, c);
    NoOccurrenceNoUnread(p, u, c);
    AbsorbSame(Index(p, u), m, u, c);
  }

  /** The entry of a counterpart `c` whose first message is at position `i`
      holds `c`, the preview of that message, and the number of unread
      messages `c` sent to the caller, whatever the order of the input. */
  lemma {:induction false} IndexEntry(ms: seq<Message>, u: UserId, c: UserId, i: int)
    requires forall i :: 0 <= i < |ms| ==> Involves(ms[i], u)
    requires IsFirst(ms, u, c, i)
    ensures Get(Index(ms, u), c) == Some(Summary(c, Preview(ms[i]), UnreadCount(ms, u, c)))
    decreases |ms|
  {
    var n := |ms|;
    var p, m := ms[..n - 1], ms[n - 1];
    assert ms == p + [m];
    assert forall j :: 0 <= j < |p| ==> p[j] == ms[j];
    if i < n - 1 {
      assert IsFirst(p, u, c, i);
      IndexEntry(p, u, c, i);
      UnreadCountConcat(p, [m], u, c);
      AbsorbKeepsEntry(Index(p, u), m, u, c, Preview(p[i]), UnreadCount(p, u, c));
    } else {
      assert !Occurs(p, u, c);
      IndexEntryFirst(p, m, u, c);
    }
  }

  /** The messages `getChatUsers` folds over: those involving the caller,
      newest first. */
  function ChatFeed(ms: seq<Message>, u: UserId): (r: seq<Message>)
    ensures forall i :: 0 <= i < |r| ==> Involves(r[i], u)
    ensures SortedBy(r, true)
    ensures multiset(r) == multiset(Where(ms, m => Involves(m, u)))
  {
    var w := Where(ms, m => Involves(m, u));
    var r := SortBy(w, true);
    assert forall i :: 0 <= i < |r| ==> r[i] in multiset(r);
    assert forall i :: 0 <= i < |r| ==> r[i] in w;
    r
  }

  /** `Object.values(conversations)` over the fold of the feed: each
      counterpart once, in ascending id order. */
  function ChatList(ms: seq<Message>, u: UserId): (r: seq<Summary>)
    ensures forall i, j :: 0 <= i < j < |r| ==> r[i].user < r[j].user
  {
    var o := Index(ChatFeed(ms, u), u);
    OrderedAscending(o);
    assert forall i | 0 <= i < |o| :: Values(o)[i].user == o[i].key by {
      forall i | 0 <= i < |o|
        ensures Values(o)[i].user == o[i].key
      {
        EntryFacts(ms, u, i);
      }
    }
    Values(o)
  }

  /** The feed holds exactly the stored messages that involve the caller. */
  lemma FeedMembers(ms: seq<Message>, u: UserId)
    ensures forall m :: m in ChatFeed(ms, u) <==> m in ms && Involves(m, u)
  {
    var w := Where(ms, m => Involves(m, u));
    assert forall m :: m in ChatFeed(ms, u) <==> m in multiset(w);
  }

  /** Some stored message involving the caller has counterpart `c`. */
  predicate Mentions(ms: seq<Message>, u: UserId, c: UserId)
  {
    exists m :: m in ms && Involves(m, u) && Counterpart(m, u) == Some(c)
  }

  /** What every entry of the fold over the feed holds. */
  lemma EntryFacts(ms: seq<Message>, u: UserId, i: int)
    requires 0 <= i < |Index(ChatFeed(ms, u), u)|
    ensures var e := Index(ChatFeed(ms, u), u)[i];
      && e.value.user == e.key
      && e.value.unreadCount == UnreadCount(ChatFeed(ms, u), u, e.key)
      && exists j :: IsFirst(ChatFeed(ms, u), u, e.key, j) && e.value.lastMessage == Preview(ChatFeed(ms, u)[j])
  {
    var feed := ChatFeed(ms, u);
    var o := Index(feed, u);
    var e := o[i];
    OrderedAscending(o);
    IndexKeys(feed, u, e.key);
    FirstExists(feed, u, e.key);
    var j :| IsFirst(feed, u, e.key, j);
    IndexEntry(feed, u, e.key, j);
  }

  /** The unread count of a listed counterpart is exactly the number of
      stored messages it sent to the caller that are still unread. */
  lemma ChatListUnread(ms: seq<Message>, u: UserId)
    ensures forall i :: 0 <= i < |ChatList(ms, u)| ==>
      ChatList(ms, u)[i].unreadCount == UnreadCount(ms, u, ChatList(ms, u)[i].user)
  {
    var o := Index(ChatFeed(ms, u), u);
    forall i | 0 <= i < |o|
      ensures ChatList(ms, u)[i].unreadCount == UnreadCount(ms, u, ChatList(ms, u)[i].user)
    {
      EntryFacts(ms, u, i);
      var c := o[i].key;
      UnreadCountSort(Where(ms, m => Involves(m, u)), true, u, c);
      UnreadCountInvolving(ms, u, c);
    }
  }

  /** `m` is a stored message between the caller and `c` that no other
      such message postdates. */
  predicate IsNewest(ms: seq<Message>, u: UserId, c: UserId, m: Message)
  {
    && m in ms && Involves(m, u) && Counterpart(m, u) == Some(c)
    && forall m' :: m' in ms && Involves(m', u) && Counterpart(m', u) == Some(c) ==> m'.createdAt <= m.createdAt
  }

  /** The first message of counterpart `c` in the newest-first feed is a
      newest message of that conversation. */
  lemma FirstIsNewest(ms: seq<Message>, u: UserId, c: UserId, j: int)
    requires IsFirst(ChatFeed(ms, u), u, c, j)
    ensures IsNewest(ms, u, c, ChatFeed(ms, u)[j])
  {
    var feed := ChatFeed(ms, u);
    FeedMembers(ms, u);
    forall m' | m' in ms && Involves(m', u) && Counterpart(m', u) == Some(c)
      ensures m'.createdAt <= feed[j].createdAt
    {
      var k :| 0 <= k < |feed| && feed[k] == m';
      assert j <= k;
    }
    assert feed[j] in feed;
  }

  /** The preview of a listed counterpart is that of a newest message of
      the conversation. */
  lemma ChatListNewest(ms: seq<Message>, u: UserId, i: int)
    requires 0 <= i < |ChatList(ms, u)|
    ensures exists m :: IsNewest(ms, u, ChatList(ms, u)[i].user, m) && ChatList(ms, u)[i].lastMessage == Preview(m)
  {
    var feed := ChatFeed(ms, u);
    var o := Index(feed, u);
    EntryFacts(ms, u, i);
    var j :| IsFirst(feed, u, o[i].key, j) && o[i].value.lastMessage == Preview(feed[j]);
    FirstIsNewest(ms, u, o[i].key, j);
  }

  /** A counterpart is listed exactly when some stored message between it
      and the caller names it; messages without a counterpart are skipped. */
  lemma ChatListCoverage(ms: seq<Message>, u: UserId, c: UserId)
    ensures (exists i :: 0 <= i < |ChatList(ms, u)| && ChatList(ms, u)[i].user == c) <==> Mentions(ms, u, c)
  {
    var feed := ChatFeed(ms, u);
    var o := Index(feed, u);
    var rs := ChatList(ms, u);
    FeedMembers(ms, u);
    OrderedAscending(o);
    IndexKeys(feed, u, c);
    if Mentions(ms, u, c) {
      var m :| m in ms && Involves(m, u) && Counterpart(m, u) == Some(c);
      var k :| 0 <= k < |feed| && feed[k] == m;
      assert Occurs(feed, u, c);
      var i :| 0 <= i < |o| && o[i].key == c;
      EntryFacts(ms, u, i);
      assert rs[i].user == c;
    }
    if exists i :: 0 <= i < |rs| && rs[i].user == c {
      var i :| 0 <= i < |rs| && rs[i].user == c;
      EntryFacts(ms, u, i);
      assert c in Keys(o);
      var k :| 0 <= k < |feed| && Counterpart(feed[k], u) == Some(c);
      assert feed[k] in feed;
    }
  }
}
