# Chat rooms: a verified model of the store behind the web handlers

This project models the state machine of a small multi-room chat web
application. Users register and log in, create public or private rooms
(a private room gets a random six-character join code), join private
rooms by code, post messages and read a room's history. The model drops
the web framework, the ORM and the session middleware. What remains is an
in-memory store with four parts: the user table, the room table, the
user/room membership relation and the append-only message log. Each route
handler is one method on that store.

Files and modules:

- `option.dfy` (`Optional`): the `Option` type, used for nullable columns.
- `codes.dfy` (`Codes`): `generate_code` over a random oracle, plus the 62-symbol alphabet.
- `text.dfy` (`Text`): Python's `str.strip()` and `str.isspace()`, as `send_message` uses them.
- `models.dfy` (`Schema`): the `user`, `chat_room` and `message` rows, the defaults of a new user, `set_password`/`check_password` over an abstract hash, and `get_id`.
- `history.dfy` (`History`): a room's messages, filtered by room and ordered by timestamp.
- `app.dfy` (`ChatApp`): the `Store` class with one method per handler, and its invariant `Valid()`.
- `scenarios.dfy` (`Scenarios`): client code that drives the store through the application's usage scenarios, using only the handlers' contracts.

`Store.Valid()` is the class invariant. Every handler preserves it.
It is built from the schema's constraints:

- Row ids are positions: row i of a table has id i + 1, which is how SQLite assigns rowids when nothing is deleted.
- Emails are unique. Every stored user has a password hash.
- A room has a code exactly when it is private. Every code is 6 alphanumeric characters, and no two rooms share one.
- A room's creator exists and is a member of it, so no room ever has zero members.
- Membership is a set of (user id, room id) pairs, and each pair names existing rows.
- Every message has an existing author, and its content is not whitespace only.

One might expect `send_message` to check membership, as `chat` does.
The code has no such check (`app.py:163-178`), and it does not check that
the room exists either. The model follows the code: `SendMessage` stores a post by
anyone to any room id. `Scenarios.NonMemberCannotReadButCanPost` shows a
non-member who cannot read a room still getting a message stored in it.

## Model

| member | source | states |
|---|---|---|
| `Codes.GenerateCode` | app.py:24-26 | the code has exactly `length` characters, each of them a letter or a digit |
| `Codes.AlphabetHas62Symbols` | app.py:25 | `ascii_letters + digits` holds exactly 62 distinct symbols: every one is alphanumeric, and every alphanumeric character is among them |
| `Codes.EveryCodeIsDrawable` | app.py:26 | every alphanumeric string of the right length comes out of `generate_code` for some run of the random source, so the generator's range is exactly the set of codes |
| `Text.Strip` | app.py:169 | `content.strip()` is no longer than the content and neither starts nor ends with a whitespace character |
| `Text.StripIsTrimmedInfix` | app.py:169 | `strip()` returns a contiguous piece of the content, with only whitespace cut from either end, that neither starts nor ends with whitespace |
| `Text.StripEmptyIffBlank` | app.py:169 | `content.strip()` is empty if and only if every character of the content is whitespace |
| `Schema.NewUser` | models.py:9-16 | a new user row has `online` false, avatar `default.png`, `is_active` true and no password hash yet |
| `Schema.SetPassword` | models.py:22-26 | after `set_password(p)`, `check_password(p)` holds, and no other column of the user changes |
| `Schema.CheckPassword` | models.py:25-26 | `check_password` accepts a password whose salted hash is the stored digest; when the hash has no collisions for the stored salt, no other password is accepted |
| `Schema.CheckPasswordAfterSet` | models.py:22-26 | with a collision-free hash, after `set_password(p)` the check accepts a password exactly when it is p |
| `Schema.WellFormedRoomFits` | models.py:44 | a room's code, absent or generated, fits the 10-character code column |
| `Schema.GetId` | models.py:29-30 | `get_id` returns a non-empty string of decimal digits |
| `Schema.DecimalRoundTrip` | models.py:29-30 | `int(str(n)) == n` for every natural number, so the id kept in the session names the same user |
| `Schema.GetIdRoundTrip` | models.py:29-30 | parsing `get_id()` of a user gives back that user's id |
| `History.RoomLog` | app.py:160 | `filter_by(chat_room_id=...)` keeps every message of the room as often as the log holds it, and no message of another room |
| `History.SortByTime` | app.py:160 | `order_by(timestamp.asc())` returns a permutation of its input in non-decreasing timestamp order |
| `History.RoomHistory` | app.py:160 | a room's history is sorted by timestamp and is a permutation of the room's messages; a message is in it exactly when it is in the log with that room id |
| `History.RoomLogOfOneRoom` | app.py:160 | filtering a log that holds only one room's messages returns the whole log |
| `History.TwoMessagesInTimeOrder` | app.py:160 | two messages with distinct timestamps are listed oldest first, whatever their order in the log |
| `ChatApp.FindEmail` | app.py:52 | the user lookup by email finds a user with that email, and it finds nothing exactly when no user has that email |
| `ChatApp.FindCode` | app.py:136 | the room lookup by code finds a room holding that code, and it finds nothing exactly when no room holds it |
| `ChatApp.JoinedRooms` | models.py:20 | `user.chat_rooms` holds exactly the rooms paired with the user in the membership relation, each once and in id order |
| `ChatApp.Store.constructor` | models.py:9-65 | the tables start empty, which satisfies every schema constraint |
| `ChatApp.Store.Register` | app.py:64-95 | an authenticated session is redirected; a password mismatch or a taken email adds no user; otherwise exactly one user is appended, with that email, a hash that accepts the password, `online` false and one of the four avatars; other tables are unchanged |
| `ChatApp.Store.Login` | app.py:44-62 | an authenticated session is redirected; login succeeds exactly when a user with that email accepts the password, and then only that user's `online` becomes true; a failed login changes nothing |
| `ChatApp.Store.Logout` | app.py:180-186 | the caller's `online` becomes false and nothing else changes |
| `ChatApp.Store.Dashboard` | app.py:97-103 | the caller's dashboard lists exactly the rooms the caller is a member of, each once |
| `ChatApp.Store.CreateChat` | app.py:105-130 | exactly one room is appended, named as asked and created by the caller, with the caller as its only member. It has a code exactly when it is private. That code is the first drawn code that no existing room holds. Users and messages are unchanged |
| `ChatApp.Store.JoinChat` | app.py:132-148 | an unknown code changes nothing. A member of the room holding the code changes nothing. Anyone else is added to exactly that room, which is private and is the only room with that code |
| `ChatApp.Store.Chat` | app.py:150-161 | an unknown room id is not found; a non-member is denied and sees no message; a member gets exactly the room's messages in non-decreasing timestamp order |
| `ChatApp.Store.SendMessage` | app.py:163-178 | whitespace-only content creates nothing. Any other content appends exactly one message, with the original untrimmed content, the caller as author, the given room id and the current time. No membership check is made, and nothing else changes |

## Left out

- Web plumbing: routing, `render_template`, `flash`, `redirect`/`url_for` and the `index` route (app.py:38-42) are not modelled. Handlers return an outcome value instead. `get_or_404` becomes the `RoomNotFound` outcome.
- Session middleware: `login_user`, `logout_user`, the `remember` cookie and `load_user` (app.py:19-21) are not modelled. A handler behind `login_required` takes the logged-in user's id as `caller`, with the precondition that the user exists. `login` and `register` take the session's user, if any, as `session`.
- `is_authenticated` and `is_anonymous` (models.py:32-38) are constants for every stored user, true and false. The session state they report is the `session` and `caller` parameters.
- Missing form fields are not modelled. Every form field is a string, and `chat_id` in `send_message` is a natural number. What a missing field does depends on the handler. A missing `content` in `send_message` raises on `strip()`. A missing `chat_name` violates the NOT NULL `name` column. A missing `email` in `login` matches no user, so the login fails with the usual message.
- `join_chat` without a `code` field: `filter_by(code=None)` (app.py:135-136) becomes `code IS NULL`, which matches the first public room, and app.py:139-140 then adds the caller to it. The model compares codes as plain strings, so this way of joining a public room is not modelled.
- Foreign keys: SQLite does not enforce them by default. `SendMessage` therefore gets no check that the room exists, and `Valid()` does not require a message's room to exist.
- Column widths: SQLite does not enforce `String(n)`, and no handler checks a length. So the 120-character email bound, the 100-character name bound and the 128-character hash bound are not invariants of the model. Only the code column's width is proved to hold.
- Password hashing: werkzeug's salted hash is the abstract `Hasher` function given to the store. Its one assumed fact is the `set_password`/`check_password` round trip. A wrong password is rejected only if the hash function has no collision.
- Randomness: `random.choice` is an oracle. For codes, character i is the alphabet symbol at `rand(i) % 62`. The avatar is the one at `avatarDraw % 4`. The salt is a parameter.
- `ChatApp.Store.CreateChat`: the redraw loop consumes a finite list of draws. It requires, for a private room only, that some draw yields an unused code. That requirement is the loop's termination, which the source leaves to chance.
- The clock: `datetime.utcnow` is a natural-number `now` that the caller supplies.
- Startup side effects: `db.create_all`, the avatar directory (app.py:29-35), the configuration and `app.run` are not modelled.
- Concurrency: handlers run one at a time. The check-then-insert races on email and code are not modelled.
- `ChatApp.Store.Chat`: the order among messages with equal timestamps is unspecified, as in the SQL query. The model computes one order but promises none.
- `ChatApp.Store.Dashboard`: the relationship gives the caller's rooms in no particular order. The model lists them by id, and only the set of rooms is the source's promise.
