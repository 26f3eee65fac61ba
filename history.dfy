/**
 * A room's message history (app.py, chat):
 * `Message.query.filter_by(chat_room_id=chat_id).order_by(Message.timestamp.asc())`.
 *
 * The query promises the room's messages in non-decreasing timestamp
 * order and nothing about the order of messages with equal timestamps.
 * RoomHistory computes one such order; its contract states only what
 * the query promises.
 */
module History {

  import opened Schema

  /** `filter_by(chat_room_id=room)`: the messages of one room, in log order. */
  function RoomLog(log: seq<Message>, room: RoomId): (r: seq<Message>)
    ensures forall m :: multiset(r)[m] == if m.chatRoomId == room then multiset(log)[m] else 0
  {
    if log == [] then []
    else
      var rest := RoomLog(log[1..], room);
      assert log == [log[0]] + log[1..];
      if log[0].chatRoomId == room then [log[0]] + rest else rest
  }

  /** `order_by(timestamp.asc())`: no message is later than one after it. */
  predicate SortedByTime(s: seq<Message>)
  {
    forall i, j :: 0 <= i < j < |s| ==> s[i].timestamp <= s[j].timestamp
  }

  /** Putting a message no later than any of a sorted sequence in front keeps it sorted. */
  lemma SortedCons(x: Message, t: seq<Message>)
    requires SortedByTime(t)
    requires forall y :: y in t ==> x.timestamp <= y.timestamp
    ensures SortedByTime([x] + t)
  {
    var r := [x] + t;
    forall i, j | 0 <= i < j < |r|
      ensures r[i].timestamp <= r[j].timestamp
    {
      assert r[j] == t[j - 1];
      if i > 0 {
        assert r[i] == t[i - 1];
      } else {
        assert t[j - 1] in t;
      }
    }
  }

  /** Inserts m before the first message that is not earlier than it. */
  function InsertByTime(m: Message, s: seq<Message>): (r: seq<Message>)
    requires SortedByTime(s)
    ensures SortedByTime(r)
    ensures multiset(r) == multiset(s) + multiset{m}
    ensures forall x :: x in r ==> x == m || x in s
  {
    if s == [] || m.timestamp <= s[0].timestamp then
      SortedCons(m, s);
      [m] + s
    else
      var rest := InsertByTime(m, s[1..]);
      assert s == [s[0]] + s[1..];
      assert forall x :: x in s[1..] ==> s[0].timestamp <= x.timestamp;
      SortedCons(s[0], rest);
      [s[0]] + rest
  }

  /** A log that holds only one room's messages is that room's log. */
  lemma {:induction false} RoomLogOfOneRoom(log: seq<Message>, room: RoomId)
    requires forall i :: 0 <= i < |log| ==> log[i].chatRoomId == room
    ensures RoomLog(log, room) == log
  {
    if log != [] {
      RoomLogOfOneRoom(log[1..], room);
    }
  }

  /** Sorts by timestamp, by insertion. */
  function SortByTime(s: seq<Message>): (r: seq<Message>)
    ensures SortedByTime(r)
    ensures multiset(r) == multiset(s)
  {
    if s == [] then []
    else
      assert s == [s[0]] + s[1..];
      InsertByTime(s[0], SortByTime(s[1..]))
  }

  /** What the chat view lists for a room. */
  function RoomHistory(log: seq<Message>, room: RoomId): (r: seq<Message>)
    ensures SortedByTime(r)
    ensures multiset(r) == multiset(RoomLog(log, room))
    ensures forall m :: m in r <==> m in log && m.chatRoomId == room
  {
    var r := SortByTime(RoomLog(log, room));
    assert forall m :: m in r <==> multiset(r)[m] > 0;
    assert forall m :: m in log <==> multiset(log)[m] > 0;
    r
  }

  /**
   * Two messages of one room with distinct timestamps are listed oldest
   * first, whatever their order in the log.
   */
  lemma TwoMessagesInTimeOrder(m1: Message, m2: Message, s: seq<Message>)
    requires m1.timestamp < m2.timestamp
    requires SortedByTime(s) && multiset(s) == multiset{m1, m2}
    ensures s == [m1, m2]
  {
    assert |s| == |multiset(s)| == 2;
    assert s == [s[0]] + [s[1]];
    assert multiset{s[0], s[1]} == multiset{m1, m2};
    assert s[0].timestamp <= s[1].timestamp;
  }
}
