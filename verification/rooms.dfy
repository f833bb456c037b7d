/** Names of the realtime channels: the personal room of a user and the
    conversation room of a pair of users. The controller has two rules for
    the conversation room: the text path sorts the ids as strings, the
    voice path orders them numerically. */
module Rooms {
  import opened Basics
  import opened Decimal

  /** `conversation_<x>_<y>` for ids written in the given order. */
  function ConversationName(x: UserId, y: UserId): string
  {
    "conversation_" + NatToString(x) + "_" + NatToString(y)
  }

  /** The personal room `user_<id>` every connection joins. */
  function UserRoom(id: UserId): (r: string)
    ensures |r| > 5 && r[..5] == "user_" && ParseNat(r[5..]) == Some(id)
  {
    ParseNatToString(id);
    assert ("user_" + NatToString(id))[5..] == NatToString(id);
    "user_" + NatToString(id)
  }

  /** `getConversationRoomId`: `[a, b].sort()` without a comparator orders the
      decimal texts, and a stable sort keeps `a` first when neither text is
      smaller. */
  function RoomByString(a: UserId, b: UserId): (r: string)
    ensures r == ConversationName(a, b) || r == ConversationName(b, a)
  {
    if LexLess(NatToString(b), NatToString(a)) then ConversationName(b, a)
    else ConversationName(a, b)
  }

  /** The voice path: `conversation_${Math.min(a, b)}_${Math.max(a, b)}`. */
  function RoomByNumber(a: UserId, b: UserId): (r: string)
    ensures r == ConversationName(a, b) || r == ConversationName(b, a)
    ensures r == ConversationName(if a <= b then a else b, if a <= b then b else a)
  {
    if a <= b then ConversationName(a, b) else ConversationName(b, a)
  }

  /** Both users of a pair compute the same text-path room. */
  lemma RoomByStringSymmetric(a: UserId, b: UserId)
    ensures RoomByString(a, b) == RoomByString(b, a)
  {
    var sa, sb := NatToString(a), NatToString(b);
    NatToStringInjective(a, b);
    LexLessTrichotomy(sa, sb);
  }

  /** Both users of a pair compute the same voice-path room. */
  lemma RoomByNumberSymmetric(a: UserId, b: UserId)
    ensures RoomByNumber(a, b) == RoomByNumber(b, a)
  {
  }

  /** When the two ids have the same number of digits the two rules name the
      same room. */
  lemma RoomRulesAgreeOnSameDigitCount(a: UserId, b: UserId)
    requires |NatToString(a)| == |NatToString(b)|
    ensures RoomByString(a, b) == RoomByNumber(a, b)
  {
    SameLengthOrder(b, a);
  }

  /** Ids 9 and 10 have different digit counts: the text path names
      `conversation_10_9`, the voice path `conversation_9_10`. */
  lemma RoomRulesDisagree()
    ensures RoomByString(9, 10) == "conversation_10_9"
    ensures RoomByNumber(9, 10) == "conversation_9_10"
    ensures RoomByString(9, 10) != RoomByNumber(9, 10)
  {
    assert NatToString(9) == "9";
    assert NatToString(1) == "1" && NatToString(0) == "0";
    assert NatToString(10) == "10";
    assert LexLess("10", "9");
  }
}
