/**
 * The relational schema (models.py): the user, chat_room and message
 * tables as records, the user_chatroom association as a set of pairs
 * (kept by the store), and the password helpers of User.
 *
 * Column widths are recorded as constants. SQLite does not enforce the
 * width of a String column, so only the join code's width is a proved
 * fact here (a generated code has 6 characters).
 */
module Schema {

  import opened Optional
  import Codes

  type UserId = nat
  type RoomId = nat
  type MessageId = nat
  /** A reading of the clock; `datetime.utcnow` is supplied by the caller. */
  type Timestamp = nat

  const EMAIL_WIDTH: nat := 120
  const NAME_WIDTH: nat := 100
  const CODE_WIDTH: nat := 10
  const DEFAULT_AVATAR: string := "default.png"

  /**
   * The salted one-way function behind werkzeug's password hashing,
   * kept abstract: `hash(salt, password)` is the stored digest.
   */
  type Hasher = (string, string) -> string

  datatype PasswordHash = PasswordHash(salt: string, digest: string)

  /** A row of `user`; `passwordHash` is None until set_password runs. */
  datatype User = User(
    id: UserId,
    email: string,
    passwordHash: Option<PasswordHash>,
    online: bool,
    avatar: string,
    createdAt: Timestamp,
    isActive: bool)

  /** A row of `chat_room`; `code` is the nullable, unique join code. */
  datatype ChatRoom = ChatRoom(
    id: RoomId,
    name: string,
    isPrivate: bool,
    code: Option<string>,
    createdAt: Timestamp,
    createdBy: UserId)

  /** A row of `message`. */
  datatype Message = Message(
    id: MessageId,
    content: string,
    timestamp: Timestamp,
    userId: UserId,
    chatRoomId: RoomId)

  /** `User(email=email)`: a new user with the column defaults and no password yet. */
  function NewUser(id: UserId, email: string, createdAt: Timestamp): (u: User)
    ensures u.id == id && u.email == email && u.createdAt == createdAt
    ensures u.passwordHash == None
    ensures !u.online && u.avatar == DEFAULT_AVATAR && u.isActive
  {
    User(id, email, None, false, DEFAULT_AVATAR, createdAt, true)
  }

  /** No two passwords hash to the same digest under this salt. */
  ghost predicate CollisionFree(hash: Hasher, salt: string)
  {
    forall a, b :: hash(salt, a) == hash(salt, b) ==> a == b
  }

  /**
   * check_password: the stored digest matches the password hashed with the
   * stored salt. When the hash has no collisions for that salt, the
   * password it accepts is the only one it accepts.
   */
  predicate CheckPassword(u: User, password: string, hash: Hasher): (ok: bool)
    requires u.passwordHash.Some?
    ensures ok && CollisionFree(hash, u.passwordHash.value.salt) ==>
              forall q :: hash(u.passwordHash.value.salt, q) == u.passwordHash.value.digest ==> q == password
  {
    hash(u.passwordHash.value.salt, password) == u.passwordHash.value.digest
  }

  /**
   * set_password: stores a fresh salted hash of the password. Afterwards
   * check_password accepts that password, and no other column changes.
   */
  function SetPassword(u: User, password: string, salt: string, hash: Hasher): (r: User)
    ensures r.passwordHash.Some? && CheckPassword(r, password, hash)
    ensures r.(passwordHash := u.passwordHash) == u
  {
    u.(passwordHash := Some(PasswordHash(salt, hash(salt, password))))
  }

  /**
   * With a collision-free hash, after set_password(p) check_password
   * accepts exactly p.
   */
  lemma CheckPasswordAfterSet(u: User, p: string, q: string, salt: string, hash: Hasher)
    requires CollisionFree(hash, salt)
    ensures CheckPassword(SetPassword(u, p, salt, hash), q, hash) <==> q == p
  {
    var v := SetPassword(u, p, salt, hash);
    if CheckPassword(v, q, hash) {
      assert hash(salt, q) == hash(salt, p);
    }
  }

  /** A code column value that the schema admits: absent, or at most CODE_WIDTH long. */
  predicate FitsCodeColumn(code: Option<string>)
  {
    code.None? || |code.value| <= CODE_WIDTH
  }

  /** A room as create_chat builds it: a code exactly when private, and that code generated. */
  predicate WellFormedRoom(r: ChatRoom)
  {
    && (r.code.Some? <==> r.isPrivate)
    && (r.code.Some? ==> Codes.IsCode(r.code.value, Codes.CODE_LENGTH))
  }

  /** A generated join code always fits the code column. */
  lemma WellFormedRoomFits(r: ChatRoom)
    requires WellFormedRoom(r)
    ensures FitsCodeColumn(r.code)
  {
  }

  /** The decimal digit for d. */
  function DigitChar(d: nat): (c: char)
    requires d < 10
    ensures '0' <= c <= '9'
  {
    ('0' as int + d) as char
  }

  /** `str(n)` for a natural number. */
  function Decimal(n: nat): (s: string)
    ensures |s| > 0 && forall i :: 0 <= i < |s| ==> '0' <= s[i] <= '9'
    ensures |s| > 1 ==> s[0] != '0'
  {
    if n < 10 then [DigitChar(n)] else Decimal(n / 10) + [DigitChar(n % 10)]
  }

  /** `int(s)` for a string of decimal digits. */
  function DecimalValue(s: string): nat
    requires forall i :: 0 <= i < |s| ==> '0' <= s[i] <= '9'
  {
    if s == [] then 0
    else DecimalValue(s[..|s| - 1]) * 10 + (s[|s| - 1] as int - '0' as int)
  }

  /** get_id: the user's id as a string, as the session stores it. */
  function GetId(u: User): (s: string)
    ensures |s| > 0 && forall i :: 0 <= i < |s| ==> '0' <= s[i] <= '9'
  {
    Decimal(u.id)
  }

  /** `int(str(n)) == n`: the id in the session names the same user. */
  lemma {:induction false} DecimalRoundTrip(n: nat)
    ensures DecimalValue(Decimal(n)) == n
  {
    if n >= 10 {
      var s := Decimal(n);
      assert s[..|s| - 1] == Decimal(n / 10);
      DecimalRoundTrip(n / 10);
    }
  }

  lemma GetIdRoundTrip(u: User)
    ensures DecimalValue(GetId(u)) == u.id
  {
    DecimalRoundTrip(u.id);
  }
}
