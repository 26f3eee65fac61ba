/**
 * The chat application's state machine (app.py): an in-memory store of
 * users, rooms, the user_chatroom membership relation and the message
 * log, with one method per route handler.
 *
 * Row ids are positions: the row at index i of a table has id i + 1, as
 * SQLite assigns rowids to a table that is never deleted from. The
 * caller of a login_required handler is passed in as `caller`; login and
 * register receive the session's current user, if any, as `session`.
 */
module ChatApp {

  import opened Optional
  import opened Schema
  import Codes
  import Text
  import History

  /** The avatars register chooses from at random. */
  const AVATARS: seq<string> := ["avatar1.png", "avatar2.png", "avatar3.png", "avatar4.png"]

  datatype RegisterOutcome = RegisterRedirected | PasswordsDiffer | EmailTaken | Registered(id: UserId)
  datatype LoginOutcome = LoginRedirected | BadCredentials | LoggedIn(id: UserId)
  datatype JoinOutcome = Joined(room: RoomId) | AlreadyJoined(room: RoomId) | CodeNotFound
  datatype ChatView = RoomNotFound | AccessDenied | Conversation(room: ChatRoom, messages: seq<Message>)

  /** The unique constraint on user.email. */
  predicate UniqueEmails(users: seq<User>)
  {
    forall i, j :: 0 <= i < j < |users| ==> users[i].email != users[j].email
  }

  /** The unique constraint on chat_room.code; rooms without a code never clash. */
  predicate UniqueCodes(rooms: seq<ChatRoom>)
  {
    forall i, j :: 0 <= i < j < |rooms| && rooms[i].code.Some? ==> rooms[i].code != rooms[j].code
  }

  predicate IdsIncreasing(rooms: seq<ChatRoom>)
  {
    forall i, j :: 0 <= i < j < |rooms| ==> rooms[i].id < rooms[j].id
  }

  /** `User.query.filter_by(email=email).first()`, as a position in the table. */
  function FindEmail(users: seq<User>, email: string): (r: Option<nat>)
    ensures r.Some? ==> r.value < |users| && users[r.value].email == email
    ensures r.None? <==> forall i :: 0 <= i < |users| ==> users[i].email != email
  {
    if users == [] then None
    else if users[0].email == email then Some(0)
    else match FindEmail(users[1..], email)
      case None => None
      case Some(k) => Some(k + 1)
  }

  /** `ChatRoom.query.filter_by(code=code).first()`, as a position in the table. */
  function FindCode(rooms: seq<ChatRoom>, code: string): (r: Option<nat>)
    ensures r.Some? ==> r.value < |rooms| && rooms[r.value].code == Some(code)
    ensures r.None? <==> forall i :: 0 <= i < |rooms| ==> rooms[i].code != Some(code)
  {
    if rooms == [] then None
    else if rooms[0].code == Some(code) then Some(0)
    else match FindCode(rooms[1..], code)
      case None => None
      case Some(k) => Some(k + 1)
  }

  /** `user.chat_rooms`: the rooms the user is a member of, in table order. */
  function JoinedRooms(rooms: seq<ChatRoom>, members: set<(UserId, RoomId)>, u: UserId): (r: seq<ChatRoom>)
    ensures forall c :: c in r <==> c in rooms && (u, c.id) in members
    ensures IdsIncreasing(rooms) ==> IdsIncreasing(r)
  {
    if rooms == [] then []
    else
      var rest := JoinedRooms(rooms[1..], members, u);
      assert forall c :: c in rooms <==> c == rooms[0] || c in rooms[1..];
      if (u, rooms[0].id) in members then [rooms[0]] + rest else rest
  }

  class Store {
    /** The password hashing function; werkzeug's is foreign code. */
    const hash: Hasher
    /** The user table. */
    var users: seq<User>
    /** The chat_room table. */
    var rooms: seq<ChatRoom>
    /** The user_chatroom table: (user_id, chat_room_id) pairs, its composite primary key. */
    var members: set<(UserId, RoomId)>
    /** The message table, in insertion order. */
    var messages: seq<Message>

    predicate HasUser(id: UserId)
      reads this`users
    {
      1 <= id <= |users|
    }

    predicate HasRoom(id: RoomId)
      reads this`rooms
    {
      1 <= id <= |rooms|
    }

    /** `current_user in chat_room.members`. */
    predicate IsMember(u: UserId, room: RoomId)
      reads this`members
    {
      (u, room) in members
    }

    predicate EmailInUse(email: string)
      reads this
    {
      exists i :: 0 <= i < |users| && users[i].email == email
    }

    predicate CodeInUse(code: string)
      reads this
    {
      exists i :: 0 <= i < |rooms| && rooms[i].code == Some(code)
    }

    /** A registered user with this email whose stored hash accepts this password. */
    predicate Accepts(email: string, password: string)
      reads this
    {
      exists i :: 0 <= i < |users| && users[i].email == email
                  && users[i].passwordHash.Some? && CheckPassword(users[i], password, hash)
    }

    /**
     * The schema's constraints and what every handler keeps true: ids are
     * positions, emails and codes are unique, a room has a code exactly
     * when it is private, its creator is a member, membership pairs name
     * existing rows, and every message has an existing author and content
     * that is not blank.
     */
    ghost predicate Valid()
      reads this
    {
      UsersValid() && RoomsValid() && MembersValid() && MessagesValid()
    }

    ghost predicate UsersValid()
      reads this`users
    {
      && (forall i :: 0 <= i < |users| ==> users[i].id == i + 1 && users[i].passwordHash.Some?)
      && UniqueEmails(users)
    }

    ghost predicate RoomsValid()
      reads this`users, this`rooms, this`members
    {
      && (forall i :: 0 <= i < |rooms| ==>
            && rooms[i].id == i + 1
            && WellFormedRoom(rooms[i])
            && HasUser(rooms[i].createdBy)
            && (rooms[i].createdBy, rooms[i].id) in members)
      && UniqueCodes(rooms)
    }

    ghost predicate MembersValid()
      reads this`users, this`rooms, this`members
    {
      forall p :: p in members ==> HasUser(p.0) && HasRoom(p.1)
    }

    ghost predicate MessagesValid()
      reads this`users, this`messages
    {
      forall i :: 0 <= i < |messages| ==>
        && messages[i].id == i + 1
        && HasUser(messages[i].userId)
        && !Text.IsBlank(messages[i].content)
    }

    /** `db.create_all()` on an empty database. */
    constructor (hash: Hasher)
      ensures Valid() && this.hash == hash
      ensures users == [] && rooms == [] && members == {} && messages == []
    {
      this.hash := hash;
      users, rooms, members, messages := [], [], {}, [];
    }

    /**
     * register: an authenticated session is sent away; otherwise a password
     * mismatch or a taken email adds nothing, and anything else adds one
     * user with that email, that password, a random avatar and the defaults.
     */
    method Register(session: Option<UserId>, email: string, password: string, confirmPassword: string,
                    salt: string, avatarDraw: nat, now: Timestamp) returns (outcome: RegisterOutcome)
      requires Valid()
      modifies this
      ensures Valid()
      ensures rooms == old(rooms) && members == old(members) && messages == old(messages)
      ensures outcome == RegisterRedirected <==> session.Some?
      ensures outcome == PasswordsDiffer <==> session.None? && password != confirmPassword
      ensures outcome == EmailTaken <==> session.None? && password == confirmPassword && old(EmailInUse(email))
      ensures !outcome.Registered? ==> users == old(users)
      ensures outcome.Registered? ==>
                && outcome.id == |old(users)| + 1 == |users|
                && users[..|old(users)|] == old(users)
                && var u := users[outcome.id - 1];
                && u.id == outcome.id && u.email == email && u.createdAt == now
                && u.passwordHash.Some? && CheckPassword(u, password, hash)
                && !u.online && u.isActive && u.avatar in AVATARS
    {
      if session.Some? {
        return RegisterRedirected;
      }
      if password != confirmPassword {
        return PasswordsDiffer;
      }
      if FindEmail(users, email).Some? {
        return EmailTaken;
      }
      var id := |users| + 1;
      var u := NewUser(id, email, now);
      u := SetPassword(u, password, salt, hash);
      u := u.(avatar := AVATARS[avatarDraw % |AVATARS|]);
      users := users + [u];
      outcome := Registered(id);
    }

    /**
     * login: an authenticated session is sent away; otherwise the user with
     * that email goes online if the password checks, and a failed login
     * changes nothing.
     */
    method Login(session: Option<UserId>, email: string, password: string) returns (outcome: LoginOutcome)
      requires Valid()
      modifies this
      ensures Valid()
      ensures rooms == old(rooms) && members == old(members) && messages == old(messages)
      ensures outcome == LoginRedirected <==> session.Some?
      ensures outcome.LoggedIn? <==> session.None? && old(Accepts(email, password))
      ensures !outcome.LoggedIn? ==> users == old(users)
      ensures outcome.LoggedIn? ==>
                && HasUser(outcome.id) && |users| == |old(users)| && old(users)[outcome.id - 1].email == email
                && users == old(users)[outcome.id - 1 := old(users)[outcome.id - 1].(online := true)]
    {
      if session.Some? {
        return LoginRedirected;
      }
      var found := FindEmail(users, email);
      if found.Some? && CheckPassword(users[found.value], password, hash) {
        var k := found.value;
        users := users[k := users[k].(online := true)];
        return LoggedIn(k + 1);
      }
      outcome := BadCredentials;
    }

    /** logout: the caller goes offline; nothing else changes. */
    method Logout(caller: UserId)
      requires Valid() && HasUser(caller)
      modifies this
      ensures Valid()
      ensures rooms == old(rooms) && members == old(members) && messages == old(messages)
      ensures users == old(users)[caller - 1 := old(users)[caller - 1].(online := false)]
    {
      users := users[caller - 1 := users[caller - 1].(online := false)];
    }

    /** dashboard: every room the caller is a member of, each once, by id. */
    method Dashboard(caller: UserId) returns (chatRooms: seq<ChatRoom>)
      requires Valid() && HasUser(caller)
      ensures forall c :: c in chatRooms <==> c in rooms && IsMember(caller, c.id)
      ensures forall i, j :: 0 <= i < j < |chatRooms| ==> chatRooms[i].id < chatRooms[j].id
    {
      chatRooms := JoinedRooms(rooms, members, caller);
    }

    /**
     * create_chat: adds exactly one room, created by the caller, whose only
     * member is the caller. A private room takes the first drawn code that
     * no room holds; a public room has no code.
     */
    method CreateChat(caller: UserId, chatName: string, isPrivate: bool, draws: seq<nat -> nat>,
                      now: Timestamp) returns (id: RoomId)
      requires Valid() && HasUser(caller)
      requires isPrivate ==>
                 exists k :: 0 <= k < |draws| && !CodeInUse(Codes.GenerateCode(Codes.CODE_LENGTH, draws[k]))
      modifies this
      ensures Valid()
      ensures users == old(users) && messages == old(messages)
      ensures id == |old(rooms)| + 1 == |rooms| && rooms[..|old(rooms)|] == old(rooms)
      ensures var r := rooms[id - 1];
              r.id == id && r.name == chatName && r.isPrivate == isPrivate
              && r.createdAt == now && r.createdBy == caller
      ensures members == old(members) + {(caller, id)}
      ensures forall u :: (u, id) in members <==> u == caller
      ensures rooms[id - 1].code.None? <==> !isPrivate
      ensures isPrivate ==> var c := rooms[id - 1].code; c.Some? && !old(CodeInUse(c.value))
      ensures isPrivate ==>
                exists k :: 0 <= k < |draws| && rooms[id - 1].code == Some(Codes.GenerateCode(Codes.CODE_LENGTH, draws[k]))
                            && forall j :: 0 <= j < k ==> old(CodeInUse(Codes.GenerateCode(Codes.CODE_LENGTH, draws[j])))
    {
      var code: Option<string> := None;
      if isPrivate {
        var k := 0;
        var c := Codes.GenerateCode(Codes.CODE_LENGTH, draws[0]);
        while CodeInUse(c)
          invariant 0 <= k < |draws| && c == Codes.GenerateCode(Codes.CODE_LENGTH, draws[k])
          invariant forall j :: 0 <= j < k ==> CodeInUse(Codes.GenerateCode(Codes.CODE_LENGTH, draws[j]))
          decreases |draws| - k
        {
          k := k + 1;
          c := Codes.GenerateCode(Codes.CODE_LENGTH, draws[k]);
        }
        code := Some(c);
      }
      id := |rooms| + 1;
      assert forall p :: p in members ==> p.1 != id;
      rooms := rooms + [ChatRoom(id, chatName, isPrivate, code, now, caller)];
      members := members + {(caller, id)};
    }

    /**
     * join_chat: joins the room holding the code. An unknown code, or a
     * caller who is already a member, changes nothing; otherwise exactly
     * the pair (caller, room) is added.
     */
    method JoinChat(caller: UserId, code: string) returns (outcome: JoinOutcome)
      requires Valid() && HasUser(caller)
      modifies this
      ensures Valid()
      ensures users == old(users) && rooms == old(rooms) && messages == old(messages)
      ensures outcome == CodeNotFound <==> !CodeInUse(code)
      ensures outcome == CodeNotFound ==> members == old(members)
      ensures !outcome.CodeNotFound? ==>
                && HasRoom(outcome.room) && rooms[outcome.room - 1].code == Some(code)
                && rooms[outcome.room - 1].isPrivate
                && forall i :: 0 <= i < |rooms| && rooms[i].code == Some(code) ==> outcome.room == i + 1
      ensures outcome.AlreadyJoined? ==> (caller, outcome.room) in old(members) && members == old(members)
      ensures outcome.Joined? ==>
                (caller, outcome.room) !in old(members) && members == old(members) + {(caller, outcome.room)}
    {
      var found := FindCode(rooms, code);
      if found.None? {
        return CodeNotFound;
      }
      var room := found.value + 1;
      if (caller, room) !in members {
        members := members + {(caller, room)};
        outcome := Joined(room);
      } else {
        outcome := AlreadyJoined(room);
      }
    }

    /**
     * chat: an unknown room id is not found; a caller who is not a member
     * sees nothing; a member sees exactly the room's messages, oldest first.
     */
    method Chat(caller: UserId, chatId: RoomId) returns (view: ChatView)
      requires Valid() && HasUser(caller)
      ensures view == RoomNotFound <==> !HasRoom(chatId)
      ensures view == AccessDenied <==> HasRoom(chatId) && !IsMember(caller, chatId)
      ensures view.Conversation? ==>
                && view.room == rooms[chatId - 1]
                && History.SortedByTime(view.messages)
                && multiset(view.messages) == multiset(History.RoomLog(messages, chatId))
                && forall m :: m in view.messages <==> m in messages && m.chatRoomId == chatId
    {
      if !HasRoom(chatId) {
        return RoomNotFound;
      }
      if !IsMember(caller, chatId) {
        return AccessDenied;
      }
      view := Conversation(rooms[chatId - 1], History.RoomHistory(messages, chatId));
    }

    /**
     * send_message: blank content creates nothing; any other content is
     * appended unchanged, by the caller, to the given room id. Neither the
     * caller's membership nor the room's existence is checked.
     */
    method SendMessage(caller: UserId, chatId: RoomId, content: string, now: Timestamp)
      returns (posted: Option<MessageId>)
      requires Valid() && HasUser(caller)
      modifies this
      ensures Valid()
      ensures users == old(users) && rooms == old(rooms) && members == old(members)
      ensures posted.None? <==> Text.IsBlank(content)
      ensures posted.None? ==> messages == old(messages)
      ensures posted.Some? ==>
                && posted.value == |old(messages)| + 1
                && messages == old(messages) + [Message(posted.value, content, now, caller, chatId)]
    {
      Text.StripEmptyIffBlank(content);
      if Text.Strip(content) != [] {
        var id := |messages| + 1;
        messages := messages + [Message(id, content, now, caller, chatId)];
        posted := Some(id);
      } else {
        posted := None;
      }
    }
  }
}
