/** The message collection behind `api::message.message`, held in memory.
    Strapi's `findMany` filters and sorts become pure functions on the
    sequence; `create` appends and `updateMany` maps. */
module MessageStore {
  import opened Basics

  /** The `data_type` attribute. */
  datatype Kind = Text | Voice

  /** One stored message. `sender` and `recipient` are the ids of the
      populated `created_user` and `received_user` relations, `None` when
      the relation resolves to no user. */
  datatype Message = Message(
    id: nat,
    sender: Option<UserId>,
    recipient: Option<UserId>,
    content: string,
    kind: Kind,
    duration: Option<int>,
    isRead: bool,
    createdAt: int)

  /** The collection in insertion order and the next id it will assign. */
  datatype Store = Store(messages: seq<Message>, nextId: nat)

  /** Every id is below `nextId` and no two messages share an id. */
  predicate WellFormed(s: Store)
  {
    && (forall i :: 0 <= i < |s.messages| ==> s.messages[i].id < s.nextId)
    && (forall i, j :: 0 <= i < j < |s.messages| ==> s.messages[i].id != s.messages[j].id)
  }

  /** The fields a caller supplies to `entityService.create`. */
  datatype Draft = Draft(
    sender: UserId,
    recipient: UserId,
    content: string,
    kind: Kind,
    duration: Option<int>)

  /** The message a draft becomes when stored with id `id` at time `now`. */
  function Materialize(d: Draft, id: nat, now: int): Message
  {
    Message(id, Some(d.sender), Some(d.recipient), d.content, d.kind, d.duration, false, now)
  }

  /** `entityService.create`: assigns the next id and the clock's time,
      stores the message unread, and returns it. */
  function Create(s: Store, d: Draft, now: int): (r: (Store, Message))
    ensures r.0.messages == s.messages + [r.1]
    ensures r.1 == Materialize(d, s.nextId, now)
    ensures r.0.nextId > r.1.id
    ensures WellFormed(s) ==> WellFormed(r.0)
    ensures WellFormed(s) ==> forall i :: 0 <= i < |s.messages| ==> s.messages[i].id != r.1.id
  {
    var m := Materialize(d, s.nextId, now);
    (Store(s.messages + [m], s.nextId + 1), m)
  }

  /** The messages satisfying a query filter, in their stored order: each
      matching message as often as it is stored, and no other. */
  function Where(ms: seq<Message>, f: Message -> bool): (r: seq<Message>)
    ensures |r| <= |ms|
    ensures forall m :: m in r <==> m in ms && f(m)
    ensures forall m {:trigger multiset(r)[m]} :: multiset(r)[m] == if f(m) then multiset(ms)[m] else 0
  {
    if |ms| == 0 then []
    else
      assert ms == [ms[0]] + ms[1..];
      if f(ms[0]) then [ms[0]] + Where(ms[1..], f)
      else Where(ms[1..], f)
  }

  /** Filtering commutes with concatenation, so the filter keeps the stored
      order of the messages it returns. */
  lemma {:induction false} WhereConcat(a: seq<Message>, b: seq<Message>, f: Message -> bool)
    ensures Where(a + b, f) == Where(a, f) + Where(b, f)
    decreases |a|
  {
    if |a| == 0 {
      assert a + b == b;
    } else {
      assert (a + b)[0] == a[0];
      assert (a + b)[1..] == a[1..] + b;
      WhereConcat(a[1..], b, f);
    }
  }

  /** The `created_user`/`received_user` filters match a relation by id. */
  predicate SentBy(m: Message, u: UserId)
  {
    m.sender == Some(u)
  }

  /** `$or: [{created_user: u}, {received_user: u}]`. */
  predicate Involves(m: Message, u: UserId)
  {
    m.sender == Some(u) || m.recipient == Some(u)
  }

  /** Either direction of the pair `a`, `b`. */
  predicate Between(m: Message, a: UserId, b: UserId)
  {
    (m.sender == Some(a) && m.recipient == Some(b)) || (m.sender == Some(b) && m.recipient == Some(a))
  }

  /** `x` may stand before `y` under `sort: { createdAt: 'desc' }` (when
      `desc`) or `'asc'`. */
  predicate Precedes(x: Message, y: Message, desc: bool)
  {
    if desc then x.createdAt >= y.createdAt else x.createdAt <= y.createdAt
  }

  predicate SortedBy(ms: seq<Message>, desc: bool)
  {
    forall i, j :: 0 <= i < j < |ms| ==> Precedes(ms[i], ms[j], desc)
  }

  /** A head that may precede every element of a sorted tail keeps the
      sequence sorted. */
  lemma SortedCons(h: Message, t: seq<Message>, desc: bool)
    requires SortedBy(t, desc)
    requires forall e :: e in t ==> Precedes(h, e, desc)
    ensures SortedBy([h] + t, desc)
  {
    forall i, j | 0 <= i < j < |[h] + t|
      ensures Precedes(([h] + t)[i], ([h] + t)[j], desc)
    {
      if i == 0 {
        assert ([h] + t)[j] == t[j - 1];
      }
    }
  }

  /** Places `x` before the first element it may precede, so that among
      equal timestamps the earlier stored message stays first. */
  function InsertBy(x: Message, ms: seq<Message>, desc: bool): (r: seq<Message>)
    requires SortedBy(ms, desc)
    ensures SortedBy(r, desc)
    ensures multiset(r) == multiset(ms) + multiset{x}
  {
    if |ms| == 0 then [x]
    else if Precedes(x, ms[0], desc) then
      SortedCons(x, ms, desc);
      [x] + ms
    else
      var t := InsertBy(x, ms[1..], desc);
      assert ms == [ms[0]] + ms[1..];
      assert forall e :: e in t ==> e in multiset(t);
      SortedCons(ms[0], t, desc);
      [ms[0]] + t
  }

  /** The query's `sort` on `createdAt`, stable in the stored order. */
  function SortBy(ms: seq<Message>, desc: bool): (r: seq<Message>)
    ensures SortedBy(r, desc)
    ensures multiset(r) == multiset(ms)
  {
    if |ms| == 0 then []
    else
      assert ms == [ms[0]] + ms[1..];
      InsertBy(ms[0], SortBy(ms[1..], desc), desc)
  }

  /** The rows `updateMany` touches in mark-as-read: from `from` to `to`,
      still unread. */
  predicate UnreadFromTo(m: Message, from: UserId, to: UserId)
  {
    m.sender == Some(from) && m.recipient == Some(to) && !m.isRead
  }

  /** The one row update of `updateMany`: set `isRead` on a matching row. */
  function MarkOne(m: Message, from: UserId, to: UserId): (r: Message)
    ensures !UnreadFromTo(r, from, to)
    ensures r.isRead <==> m.isRead || UnreadFromTo(m, from, to)
    ensures r.(isRead := m.isRead) == m
  {
    if UnreadFromTo(m, from, to) then m.(isRead := true) else m
  }

  /** `updateMany({filters: {created_user: from, received_user: to,
      isRead: false}, data: {isRead: true}})`. */
  function MarkRead(ms: seq<Message>, from: UserId, to: UserId): (r: seq<Message>)
    ensures |r| == |ms|
    ensures forall i :: 0 <= i < |ms| ==> r[i] == MarkOne(ms[i], from, to)
  {
    if |ms| == 0 then [] else [MarkOne(ms[0], from, to)] + MarkRead(ms[1..], from, to)
  }

  /** Number of unread messages from `c` to `u`: the quantity the
      conversation list reports as `unreadCount`. */
  function UnreadCount(ms: seq<Message>, u: UserId, c: UserId): (r: nat)
    ensures r <= |ms|
    ensures r > 0 <==> exists i :: 0 <= i < |ms| && UnreadFromTo(ms[i], c, u)
  {
    if |ms| == 0 then 0
    else (if UnreadFromTo(ms[0], c, u) then 1 else 0) + UnreadCount(ms[1..], u, c)
  }

  lemma {:induction false} UnreadCountConcat(a: seq<Message>, b: seq<Message>, u: UserId, c: UserId)
    ensures UnreadCount(a + b, u, c) == UnreadCount(a, u, c) + UnreadCount(b, u, c)
    decreases |a|
  {
    if |a| > 0 {
      assert (a + b)[1..] == a[1..] + b;
      UnreadCountConcat(a[1..], b, u, c);
    } else {
      assert a + b == b;
    }
  }

  /** The count is zero exactly when no message from `c` to `u` is unread. */
  lemma {:induction false} UnreadCountZero(ms: seq<Message>, u: UserId, c: UserId)
    ensures UnreadCount(ms, u, c) == 0 <==> forall m :: m in ms ==> !UnreadFromTo(m, c, u)
    decreases |ms|
  {
    if |ms| > 0 {
      UnreadCountZero(ms[1..], u, c);
      assert forall m :: m in ms <==> m == ms[0] || m in ms[1..];
    }
  }

  lemma {:induction false} UnreadCountInsert(x: Message, ms: seq<Message>, desc: bool, u: UserId, c: UserId)
    requires SortedBy(ms, desc)
    ensures UnreadCount(InsertBy(x, ms, desc), u, c) == UnreadCount([x], u, c) + UnreadCount(ms, u, c)
    decreases |ms|
  {
    if |ms| == 0 {
    } else if Precedes(x, ms[0], desc) {
      UnreadCountConcat([x], ms, u, c);
    } else {
      UnreadCountInsert(x, ms[1..], desc, u, c);
      UnreadCountConcat([ms[0]], InsertBy(x, ms[1..], desc), u, c);
      assert ms == [ms[0]] + ms[1..];
      UnreadCountConcat([ms[0]], ms[1..], u, c);
    }
  }

  /** Sorting does not change how many unread messages there are. */
  lemma {:induction false} UnreadCountSort(ms: seq<Message>, desc: bool, u: UserId, c: UserId)
    ensures UnreadCount(SortBy(ms, desc), u, c) == UnreadCount(ms, u, c)
    decreases |ms|
  {
    if |ms| > 0 {
      UnreadCountSort(ms[1..], desc, u, c);
      UnreadCountInsert(ms[0], SortBy(ms[1..], desc), desc, u, c);
      UnreadCountConcat([ms[0]], ms[1..], u, c);
      assert ms == [ms[0]] + ms[1..];
    }
  }

  /** Filtering to the messages involving `u` keeps every unread message
      addressed to `u`. */
  lemma {:induction false} UnreadCountInvolving(ms: seq<Message>, u: UserId, c: UserId)
    ensures UnreadCount(Where(ms, m => Involves(m, u)), u, c) == UnreadCount(ms, u, c)
    decreases |ms|
  {
    if |ms| > 0 {
      UnreadCountInvolving(ms[1..], u, c);
    }
  }

  /** After mark-as-read nothing from `from` to `to` is unread. */
  lemma MarkReadClears(ms: seq<Message>, from: UserId, to: UserId)
    ensures forall m :: m in MarkRead(ms, from, to) ==> !UnreadFromTo(m, from, to)
  {
  }

  /** Mark-as-read a second time changes nothing. */
  lemma MarkReadIdempotent(ms: seq<Message>, from: UserId, to: UserId)
    ensures MarkRead(MarkRead(ms, from, to), from, to) == MarkRead(ms, from, to)
  {
  }

  /** Mark-as-read only ever sets `isRead`: ids, parties, contents, kinds,
      durations and timestamps are untouched, and no read message becomes
      unread. */
  lemma MarkReadMonotone(ms: seq<Message>, from: UserId, to: UserId)
    ensures forall i :: 0 <= i < |ms| ==> ms[i].isRead ==> MarkRead(ms, from, to)[i].isRead
    ensures forall i :: 0 <= i < |ms| ==> MarkRead(ms, from, to)[i].(isRead := ms[i].isRead) == ms[i]
  {
  }
}
