/**
 * Client code that drives the store through the application's usage
 * scenarios. Each assertion follows from the handlers' contracts alone.
 */
module Scenarios {

  import opened Optional
  import opened Schema
  import Codes
  import Text
  import History
  import opened ChatApp

  /** Register then log in with the same password; a second registration of the email fails. */
  method RegisterThenLogin(hash: Hasher, email: string, password: string, salt: string)
  {
    var store := new Store(hash);
    var first := store.Register(None, email, password, password, salt, 0, 1);
    assert first == Registered(1);
    var user := store.users[0];
    assert user.passwordHash.Some? && CheckPassword(user, password, hash);
    var again := store.Register(None, email, "other", "other", salt, 3, 2);
    assert store.users[0].email == email;
    assert again == EmailTaken;
    assert store.users[0] == user;
    assert store.Accepts(email, password);
    var login := store.Login(None, email, password);
    assert login == LoggedIn(1);
    assert store.users[0].online;
  }

  /** A creates a private room, B joins it by code twice: the members are exactly A and B. */
  method JoinPrivateRoomTwice(hash: Hasher, draw: nat -> nat)
  {
    var store := new Store(hash);
    var a := store.Register(None, "a@example.com", "pw", "pw", "s", 0, 0);
    var b := store.Register(None, "b@example.com", "pw", "pw", "s", 1, 0);
    assert a == Registered(1) && b == Registered(2);
    assert !store.CodeInUse(Codes.GenerateCode(Codes.CODE_LENGTH, [draw][0]));
    var team := store.CreateChat(1, "Team", true, [draw], 1);
    var code := store.rooms[team - 1].code.value;
    var first := store.JoinChat(2, code);
    assert first == Joined(team);
    var second := store.JoinChat(2, code);
    assert second == AlreadyJoined(team);
    assert forall u :: (u, team) in store.members <==> u == 1 || u == 2;
  }

  /**
   * In a room where A is a member and nothing has been posted, A posts
   * "hello" and B then posts "world": A reads them in that order.
   */
  method MessagesOldestFirst(store: Store, a: UserId, b: UserId, room: RoomId)
    requires store.Valid() && store.HasUser(a) && store.HasUser(b)
    requires store.HasRoom(room) && store.IsMember(a, room) && store.messages == []
    modifies store
  {
    assert !Text.IsBlank("hello") by { assert !Text.IsSpace("hello"[0]); }
    var hello := store.SendMessage(a, room, "hello", 5);
    assert !Text.IsBlank("world") by { assert !Text.IsSpace("world"[0]); }
    var world := store.SendMessage(b, room, "world", 7);
    var m1 := Message(1, "hello", 5, a, room);
    var m2 := Message(2, "world", 7, b, room);
    assert store.messages == [m1, m2];

    ReadsOldestFirst(store, a, room, m1, m2);
  }

  /** A member reading a room whose log holds two of its messages gets the older one first. */
  method ReadsOldestFirst(store: Store, a: UserId, room: RoomId, m1: Message, m2: Message)
    requires store.Valid() && store.HasUser(a) && store.HasRoom(room) && store.IsMember(a, room)
    requires m1.chatRoomId == room && m2.chatRoomId == room && m1.timestamp < m2.timestamp
    requires store.messages == [m1, m2] || store.messages == [m2, m1]
  {
    History.RoomLogOfOneRoom(store.messages, room);
    var view := store.Chat(a, room);
    assert view.Conversation?;
    var listed := view.messages;
    assert multiset(listed) == multiset{m1, m2};
    History.TwoMessagesInTimeOrder(m1, m2, listed);
    assert listed == [m1, m2];
  }

  /**
   * C is not a member of an existing room: C cannot read it, a blank post
   * by C creates nothing, and any other post by C is stored in that room.
   */
  method NonMemberCannotReadButCanPost(store: Store, c: UserId, room: RoomId)
    requires store.Valid() && store.HasUser(c) && store.HasRoom(room) && !store.IsMember(c, room)
    modifies store
  {
    var view := store.Chat(c, room);
    assert view == AccessDenied;
    var before := store.messages;
    assert Text.IsBlank("   ");
    var blank := store.SendMessage(c, room, "   ", 8);
    assert blank == None && store.messages == before;
    assert !Text.IsBlank("hi") by { assert !Text.IsSpace("hi"[0]); }
    var intrusion := store.SendMessage(c, room, "hi", 9);
    assert intrusion.Some? && store.messages == before + [Message(intrusion.value, "hi", 9, c, room)];
  }
}
