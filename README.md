# Realtime chat: a verified model

The application is a realtime chat. It has two parts:

- **The backend** is Flask with Flask-SocketIO and SQLAlchemy.
  - REST endpoints cover registration, login and logout, users, public and private messages, and file metadata.
  - A socket.io event layer keeps one session per connection (`connected_users`) and the rooms that session has joined. Rooms are the public room and one room per private chat.
- **The frontend** is Next.js. It has:
  - a socket singleton with guarded emitters;
  - axios interceptors;
  - the chat page, sidebar, window, bubble and input components;
  - the login/registration form and the settings page.

This project restates that behaviour in Dafny and proves properties of it.

## Layout

- **Backend state: `Database.Db`.** A class with one table per model, each a sequence in insertion order, and one autoincrement counter per table. `db.session.add` + `commit` is an append with the next id. `db.session.delete` + `commit` removes the row. `Valid()` keeps primary keys strictly ascending and below their counter.
- **Query helpers: `Tables`.** `filter_by`, `get`, `delete` and `order_by` / `order_by(...desc())` as functions with contracts. Ordering is a stable insertion sort, proved sorted and a permutation.
- **Record shapes: `Records`.** The record shapes of the backend models, and `Message.to_dict`. Replies are `Reply<T>` (status and body, or status and message). A missing JSON key is an uncaught `KeyError`, which is a 500 (`Crash`).
- **REST handlers: `AuthApi`, `JwtCallbacks`, `UsersApi`, `MessagesApi`, `FilesApi`.**
  - Each ordered check chain is a function returning the first rejection.
  - Each GET is a function over the tables.
  - Each handler that writes is a method that `modifies` exactly the tables it writes.
  - The JWT identity is a parameter (`caller`), and password hashing is the parameter `hash`.
- **Socket layer: `ChatEvents.ChatServer`.** A class holding `connected` (sid to session) and `order` (the dict's insertion order, which `get_online_users` iterates).
  - Each handler is a method returning the emitted event as an `Outcome`: silent, one emit (to the caller, to a room, or to a room except the caller), a refused connection, or an escaping exception.
  - Each handler's checks are a `Guard` function whose clauses give every branch in order.
- **Frontend modules: `SocketClient`, `ApiClient`, `UiTypes`, `ChatWindow`, `MessageInput`, `MessageBubble`, `ChatPage`, `ChatSidebar`, `Avatar`, `AuthForm`, `SettingsPage`.** Each follows one frontend file.
  - React state becomes a class whose methods are the handlers.
  - `localStorage` and `window.location` are the `ApiClient.Browser` class.
  - The socket.io client is `SocketClient.ClientSocket`: the connection flag and an append-only log of the events emitted on it.
- **Shared helpers: `Common`.** Python `strip` and JavaScript `trim`, each with its own language's whitespace, ASCII case mapping, `str(int)` and `int(str)` with a proved round trip, `split(' ')`, `map`, `slice` and `join`.

Where a source file calls code that is not part of this model, the result of that call is a parameter. This covers:

- the `/chats` endpoints;
- `getAuthUser` and `changePassword`;
- JWT decoding;
- `JSON.parse`.

### Where the code was followed over the repository's description

The repository's own description mentions features the client does not have:

- pending/sent message states;
- echo reconciliation;
- a retry queue;
- unread-count push events;
- file socket events.

The code only appends sent messages locally (`ChatWindow.tsx:229`), and nothing in the frontend calls the message emitters. The model follows the code.

`PrivateChat.get_chat_between_users` is called but not defined (`models/private_chat.py`). It is modelled as `Records.ChatBetween`: the first chat, in insertion order, whose two users are the given pair in either order. The check at `files.py:48` reads the pair the same way.

## Model

| member | source | states |
|---|---|---|
| ChatEvents.PrivateRoom | realtime-chat-backend/app/sockets/chat_events.py:186 | the room name is `private_chat_` followed by the chat id in decimal |
| ChatEvents.PrivateRoomsDistinct | realtime-chat-backend/app/sockets/chat_events.py:186 | different chats get different rooms, and no private room is the public room |
| ChatEvents.ReadId | realtime-chat-backend/app/sockets/chat_events.py:161-171 | "no id" exactly for missing, `0` or `""`; "invalid" exactly for non-empty text that `int()` refuses; otherwise the parsed integer |
| ChatEvents.ContentText | realtime-chat-backend/app/sockets/chat_events.py:125 | `data.get('content', '').strip()`: None (an `AttributeError`) exactly for null, `""` when absent, otherwise the stripped text |
| ChatEvents.ConnectSession | realtime-chat-backend/app/sockets/chat_events.py:14-59 | no token or an empty token connects anonymously; with a token the connection is accepted iff `sub` decodes, parses as an integer and names an existing user, and the session is that user's |
| ChatEvents.LoginThenConnect | realtime-chat-backend/app/sockets/chat_events.py:24-42 | a token carrying the identity a successful `/login` issued connects as the user that logged in |
| ChatEvents.OnlineUsers | realtime-chat-backend/app/sockets/chat_events.py:288-294 | an entry is listed iff some session in dict order is in the public room with that id and name; at most one entry per session |
| ChatEvents.ChatServer.constructor | realtime-chat-backend/app/sockets/chat_events.py:11 | no sessions, over a valid store |
| ChatEvents.ChatServer.Connect | realtime-chat-backend/app/sockets/chat_events.py:14-59 | a refused connection changes nothing; an accepted one stores the session (appended to the dict order when new) and greets the caller by name |
| ChatEvents.ChatServer.Disconnect | realtime-chat-backend/app/sockets/chat_events.py:61-73 | an unknown sid changes nothing; a known one leaves all its rooms, is removed from the map and the order, and afterwards belongs to no room |
| ChatEvents.ChatServer.LeaveRooms | realtime-chat-backend/app/sockets/chat_events.py:67-70 | the loop leaves exactly the session's rooms and empties its room set |
| ChatEvents.ChatServer.Forget | realtime-chat-backend/app/sockets/chat_events.py:73 | `del connected_users[sid]`: the key leaves the map and the iteration order, and the other keys keep their order |
| ChatEvents.ChatServer.JoinPublic | realtime-chat-backend/app/sockets/chat_events.py:75-91 | only a connected session joins; it gains the public room and the others in the room are told `user_joined` |
| ChatEvents.ChatServer.LeavePublic | realtime-chat-backend/app/sockets/chat_events.py:93-110 | only a session in the public room leaves it, and the others are told `user_left`; otherwise nothing happens |
| ChatEvents.SendPublicGuard | realtime-chat-backend/app/sockets/chat_events.py:115-128 | the checks in order (connected, in the public room, content not blank), each with its error to the caller; null content raises; proceeds iff all pass, with the stripped text |
| ChatEvents.PublicDelivery | realtime-chat-backend/app/sockets/chat_events.py:139-150 | a serialisable message is broadcast to the public room as `new_public_message`; otherwise the caller gets "Failed to send message" |
| ChatEvents.ChatServer.SendPublicMessage | realtime-chat-backend/app/sockets/chat_events.py:112-151 | a rejected message stores nothing; an anonymous sender's commit fails and stores nothing; otherwise exactly one message is appended with the next id and delivered; a room broadcast only goes to the public room, which the sender is in |
| ChatEvents.ChatServer.StorePublic | realtime-chat-backend/app/sockets/chat_events.py:130-144 | appends the message with the next id and returns its delivery |
| ChatEvents.JoinPrivateGuard | realtime-chat-backend/app/sockets/chat_events.py:156-177 | the checks in order (connected, id given, id an integer, user found), each with its error to the caller; proceeds iff all pass and the caller is a known user, with the caller id and the other user |
| ChatEvents.SeparatorPaddedIdRefused | realtime-chat-backend/app/sockets/chat_events.py:167-171 | an id text padded with U+001F is not an integer to `int()`, so a connected caller gets "Invalid user ID" |
| ChatEvents.ChatServer.JoinPrivate | realtime-chat-backend/app/sockets/chat_events.py:153-198 | a rejection changes nothing; otherwise the pair's chat is reused or created once, the caller joins its room and gets `joined_private` |
| ChatEvents.ChatServer.EnterPrivate | realtime-chat-backend/app/sockets/chat_events.py:179-196 | the successful part of `join_private`: chat found or created, room joined, caller told |
| ChatEvents.ChatServer.ChatFor | realtime-chat-backend/app/sockets/chat_events.py:179-184 | returns the existing chat between the pair, or appends a new one with the next id; afterwards the lookup finds it |
| ChatEvents.PrivateRoomToLeave | realtime-chat-backend/app/sockets/chat_events.py:203-223 | a room is left iff the id parses, the caller is a known user, the pair's chat exists and the caller is in its room; that room is never the public room |
| ChatEvents.ChatServer.LeavePrivate | realtime-chat-backend/app/sockets/chat_events.py:200-224 | emits nothing; removes exactly that room from the caller's rooms, and nothing else changes |
| ChatEvents.SendPrivateGuard | realtime-chat-backend/app/sockets/chat_events.py:229-256 | the checks in order (connected, content not null or the handler raises, id and content given, id an integer, chat found, caller in its room), each with its error; proceeds iff all pass, with the caller, the pair's chat and the stripped text |
| ChatEvents.ChatServer.SendPrivateMessage | realtime-chat-backend/app/sockets/chat_events.py:226-280 | a rejection stores nothing; otherwise exactly one private message is appended and sent to the chat's room, a room the sender is in |
| ChatEvents.PrivateMessagesStayPrivate | realtime-chat-backend/app/sockets/chat_events.py:253-273 | an accepted private message is never broadcast to the public room |
| ChatEvents.ChatServer.GetOnlineUsers | realtime-chat-backend/app/sockets/chat_events.py:282-296 | silent for an unknown sid; otherwise the caller gets the list the loop accumulates, which is `OnlineUsers` over the dict order |
| ChatEvents.DistinctWhere | realtime-chat-backend/app/sockets/chat_events.py:73 | removing keys keeps the remaining dict order free of duplicates |
| ChatEvents.AppendDistinct | realtime-chat-backend/app/sockets/chat_events.py:37-41 | storing a new sid keeps the dict order free of duplicates |
| AuthApi.RegisterCheck | realtime-chat-backend/app/api/auth.py:13-23 | a taken username gives 409 "Username already exists" first, then a taken email gives "Email already exists", a missing key gives a 500; accepted iff all keys are present and both are free |
| AuthApi.RegisterKeepsIdentitiesUnique | realtime-chat-backend/app/api/auth.py:13-26 | a user accepted by the checks keeps usernames and emails unique |
| AuthApi.Register | realtime-chat-backend/app/api/auth.py:9-28 | a rejection changes nothing; otherwise one user with the next id and the hashed password is appended and returned with 201; uniqueness of usernames and emails is preserved |
| AuthApi.WithUsername | realtime-chat-backend/app/api/auth.py:34 | `filter_by(username=…)`: exactly the users with that username |
| AuthApi.Login | realtime-chat-backend/app/api/auth.py:30-44 | a missing username key gives 500 and a `null` one 401; an unknown username gives 401; for a known one, a missing password gives 500, a hash matching the first user of that name gives 200 with the decimal id as identity and that user's view, and any other hash gives 401; every success is of that form and every error is 401 or 500 |
| AuthApi.WrongPasswordRejected | realtime-chat-backend/app/api/auth.py:36-37 | a wrong password is answered exactly like an unknown user |
| AuthApi.LoginIdentityParses | realtime-chat-backend/app/api/auth.py:39 | the identity `str(user.id)` parses back to the user's id |
| AuthApi.Logout | realtime-chat-backend/app/api/auth.py:46-53 | the token's jti is appended to the blocklist and the reply is 200 |
| JwtCallbacks.CheckIfTokenRevoked | realtime-chat-backend/app/jwt_callbacks.py:4-6 | a token is revoked iff its jti is in the blocklist |
| JwtCallbacks.EmptyBlocklistRevokesNothing | realtime-chat-backend/app/jwt_callbacks.py:4-6 | with an empty blocklist no token is revoked |
| JwtCallbacks.LogoutRevokes | realtime-chat-backend/app/jwt_callbacks.py:4-6 | after logout the logged-out token is revoked and every other token keeps its status |
| UsersApi.GetUsers | realtime-chat-backend/app/api/users.py:7-11 | 200 with every user's view, in table order |
| UsersApi.GetUser | realtime-chat-backend/app/api/users.py:13-19 | 404 "User not found" iff no user has the id; otherwise 200 with that user's view |
| UsersApi.ApplyUpdate | realtime-chat-backend/app/api/users.py:29-34 | exactly the keys present are replaced (the password by its hash); id and avatar are kept |
| UsersApi.EmptyUpdateIsIdentity | realtime-chat-backend/app/api/users.py:29-34 | an update with no keys changes nothing |
| UsersApi.Replace | realtime-chat-backend/app/api/users.py:36 | the commit writes the changed row in place and leaves the others |
| UsersApi.UpdateUser | realtime-chat-backend/app/api/users.py:21-43 | 404 and no change for an unknown id; otherwise the row is replaced by the update and echoed |
| UsersApi.UpdateChangesOnlyThatUser | realtime-chat-backend/app/api/users.py:21-43 | the updated table differs from the old one only in that user's row |
| UsersApi.DeleteUser | realtime-chat-backend/app/api/users.py:45-53 | 404 and no change for an unknown id; otherwise exactly that row is removed |
| Records.View | realtime-chat-backend/app/models/message.py:30-34 | the user fields the API exposes: id, username, email and avatar URL |
| Records.FilesOfMessage | realtime-chat-backend/app/models/message.py:24 | exactly the files attached to that public message |
| Records.MessageToDict | realtime-chat-backend/app/models/message.py:20-36 | fails iff the author row is missing; otherwise carries the message's id, content, timestamp, the author's id, name and avatar, and its files |
| Records.ChatBetween | realtime-chat-backend/app/api/messages.py:43 | finds a chat of the unordered pair when one exists, None iff none does |
| Records.ChatBetweenSymmetric | realtime-chat-backend/app/api/messages.py:43 | the lookup does not depend on the order of the two users |
| Records.ChatBetweenAppend | realtime-chat-backend/app/api/messages.py:61-65 | appending a chat does not change an earlier match, and is found when none existed |
| MessagesApi.SerializeAll | realtime-chat-backend/app/api/messages.py:16 | fails iff some message cannot be serialised; otherwise serialises each message, in order |
| MessagesApi.GetMessages | realtime-chat-backend/app/api/messages.py:12-16 | 500 iff some message has no author; otherwise 200 with the messages ordered by timestamp |
| MessagesApi.GetMessagesOldestFirst | realtime-chat-backend/app/api/messages.py:15-16 | the listed timestamps never decrease, and every stored message appears and nothing else |
| MessagesApi.SerializedTimestamps | realtime-chat-backend/app/api/messages.py:15-16 | serialising a list sorted by timestamp keeps the timestamps in order |
| MessagesApi.SerializedMembers | realtime-chat-backend/app/api/messages.py:15-16 | the serialised list holds every stored message's dict and nothing else |
| MessagesApi.CreateMessage | realtime-chat-backend/app/api/messages.py:20-33 | a missing content key is a 500 and stores nothing; otherwise one message by the caller is appended and returned with 201 |
| MessagesApi.CreatedMessageAuthoredByCaller | realtime-chat-backend/app/api/messages.py:26-33 | the serialised new message names the caller as author |
| MessagesApi.DeleteMessageCheck | realtime-chat-backend/app/api/messages.py:81-87 | 404 iff not found, 403 iff found but someone else's, accepted iff found and the caller's |
| MessagesApi.DeleteMessage | realtime-chat-backend/app/api/messages.py:77-92 | a rejection changes nothing; otherwise exactly that message is removed |
| MessagesApi.ChatMessages | realtime-chat-backend/app/api/messages.py:47 | exactly the messages of that chat |
| MessagesApi.GetPrivateMessages | realtime-chat-backend/app/api/messages.py:38-48 | always 200; empty when the pair has no chat, otherwise that chat's messages ordered by timestamp |
| MessagesApi.PrivateMessagesSymmetric | realtime-chat-backend/app/api/messages.py:43 | both participants read the same conversation |
| MessagesApi.CreatePrivateMessage | realtime-chat-backend/app/api/messages.py:52-75 | messaging oneself is 400 with no change; otherwise the pair's chat is created only if missing, and a message with content is appended to it with 201 (a missing key is a 500) |
| MessagesApi.CreateChatKeepsOneChatPerPair | realtime-chat-backend/app/api/messages.py:61-65 | creating a chat only when the pair has none keeps one chat per unordered pair |
| MessagesApi.DeletePrivateMessageCheck | realtime-chat-backend/app/api/messages.py:100-111 | 404 not found, then 403 not the sender's, then 404 not in the pair's chat; accepted only for the sender's message in that chat |
| MessagesApi.DeletePrivateMessage | realtime-chat-backend/app/api/messages.py:96-115 | a rejection changes nothing; otherwise exactly that message is removed |
| FilesApi.AnyEndsWith | realtime-chat-backend/app/api/files.py:29 | true iff the name ends with one of the extensions |
| FilesApi.AllowedTypeIgnoresCase | realtime-chat-backend/app/api/files.py:28-29 | the type check ignores the case of the filename |
| FilesApi.AcceptedTypeExamples | realtime-chat-backend/app/api/files.py:27-30 | `Report.PDF` and `photo.jpeg` are accepted |
| FilesApi.RejectedTypeExamples | realtime-chat-backend/app/api/files.py:27-30 | `notes.txt` and `pdf` are refused |
| FilesApi.Get | realtime-chat-backend/app/api/files.py:56-57 | `data.get(key)` yields a value iff the key is present and not null |
| FilesApi.CreateFileCheck | realtime-chat-backend/app/api/files.py:17-49 | the checks in order (required keys, size, type, exactly one association, owns the message or is in the chat), each iff the earlier ones pass and it fails; accepted iff all pass |
| FilesApi.SizeLimitInclusive | realtime-chat-backend/app/api/files.py:22-24 | exactly 5 MiB is allowed and one byte more is refused |
| FilesApi.CreateFile | realtime-chat-backend/app/api/files.py:11-63 | a rejection changes nothing; otherwise one record by the caller with the next id is appended and returned with 201 |
| FilesApi.StoredFileAttachedOnce | realtime-chat-backend/app/api/files.py:32-58 | an accepted file has exactly one association, owned by or shared with the caller, within the size limit and of an allowed type |
| FilesApi.NewestFirst | realtime-chat-backend/app/api/files.py:70 | exactly the matching files, newest upload first, as a permutation of the filtered rows |
| FilesApi.GetFiles | realtime-chat-backend/app/api/files.py:65-72 | exactly the caller's files, newest first |
| FilesApi.GetFilesPrivate | realtime-chat-backend/app/api/files.py:74-80 | exactly the chat's files, newest first |
| FilesApi.GetFilesPublic | realtime-chat-backend/app/api/files.py:83-89 | exactly the message's files, newest first |
| FilesApi.PublicFilesMatchSerialiser | realtime-chat-backend/app/api/files.py:87 | the endpoint lists the same files the message serialiser embeds |
| FilesApi.FileAccessCheck | realtime-chat-backend/app/api/files.py:96-102 | 404 iff not found, 403 iff someone else's, accepted iff the caller uploaded it |
| FilesApi.GetFile | realtime-chat-backend/app/api/files.py:92-104 | the rejection of the check when it fails; when it passes, 200 with the record of that id, which the caller uploaded |
| FilesApi.DeleteFile | realtime-chat-backend/app/api/files.py:107-121 | a rejection changes nothing; otherwise exactly that record is removed |
| Database.Db.constructor | realtime-chat-backend/app/api/auth.py:25-26 | an empty store with valid keys |
| Database.Db.AddUser | realtime-chat-backend/app/api/auth.py:25-26 | appends the user with the next id and advances the counter; keys stay unique |
| Database.Db.AddMessage | realtime-chat-backend/app/api/messages.py:30-31 | appends the message with the next id and advances the counter |
| Database.Db.AddChat | realtime-chat-backend/app/api/messages.py:63-65 | appends the chat with the next id and advances the counter |
| Database.Db.AddPrivateMessage | realtime-chat-backend/app/api/messages.py:72-73 | appends the private message with the next id and advances the counter |
| Database.Db.AddFile | realtime-chat-backend/app/api/files.py:60-61 | appends the file record with the next id and advances the counter |
| Tables.Where | realtime-chat-backend/app/api/messages.py:47 | `filter_by`: exactly the matching rows, in order |
| Tables.WhereAll | realtime-chat-backend/app/api/messages.py:47 | a filter every row passes keeps the table as it is |
| Tables.WhereCounts | realtime-chat-backend/app/api/files.py:70 | each matching row is kept as often as it occurs, and no other row is kept |
| Tables.WhereAppend | realtime-chat-backend/app/api/files.py:70 | filtering distributes over concatenation |
| Tables.Lookup | realtime-chat-backend/app/api/users.py:15 | `db.session.get`: a row with that key, None iff none has it |
| Tables.LookupUnique | realtime-chat-backend/app/api/users.py:15 | with unique keys the lookup returns the row itself |
| Tables.Delete | realtime-chat-backend/app/api/users.py:51 | exactly the rows with other keys remain |
| Tables.DeleteOne | realtime-chat-backend/app/api/users.py:51-52 | deleting an existing key removes exactly one row and keeps the keys ascending |
| Tables.DeleteKeepsAscending | realtime-chat-backend/app/api/users.py:51 | deleting any key keeps the remaining keys ascending |
| Tables.AppendKeepsAscending | realtime-chat-backend/app/api/auth.py:25-26 | appending with the counter's id keeps keys ascending and below the next counter |
| Tables.TryMap | realtime-chat-backend/app/api/messages.py:16 | fails iff some element fails; otherwise the element-wise results |
| Tables.Insert | realtime-chat-backend/app/api/messages.py:15 | adds one element to the multiset |
| Tables.InsertKeepsOrder | realtime-chat-backend/app/api/messages.py:15 | inserting into a sorted list keeps it sorted |
| Tables.SortedCons | realtime-chat-backend/app/api/messages.py:15 | a head no later than the sorted rest keeps the list sorted |
| Tables.OrderBy | realtime-chat-backend/app/api/messages.py:15 | `order_by`: sorted by the key and a permutation of the rows |
| Tables.OrderByDesc | realtime-chat-backend/app/api/files.py:70 | `order_by(desc)`: non-increasing keys and a permutation of the rows |
| Common.TrimStart | realtime-chat-backend/app/sockets/chat_events.py:125 | drops exactly the leading whitespace of the dialect (Python `str.isspace` for `strip`, including the separators U+001C to U+001F and U+0085; the smaller set `int()` skips, with U+0085 but without U+001C to U+001F; JavaScript WhiteSpace and LineTerminator, including U+FEFF) |
| Common.TrimEnd | realtime-chat-backend/app/sockets/chat_events.py:125 | drops exactly the trailing whitespace of the language |
| Common.DialectsDiffer | realtime-chat-backend/app/sockets/chat_events.py:125 | Python strips U+001C and keeps U+FEFF; JavaScript does the reverse |
| Common.BlankIffAllSpace | realtime-chat-backend/app/sockets/chat_events.py:126 | stripping gives `""` iff the text is all whitespace |
| Common.TrimmedEnds | realtime-chat-backend/app/sockets/chat_events.py:125 | a stripped text neither starts nor ends with whitespace |
| Common.ToLower | realtime-chat-backend/app/api/files.py:28 | lower-cases each character, keeping the length |
| Common.ToUpper | realtime-chat-frontend/components/Avatar.tsx:34 | upper-cases each character, keeping the length |
| Common.NatToDecimal | realtime-chat-backend/app/api/auth.py:39 | `str(n)`: non-empty digits with no leading zero except for 0 |
| Common.DecimalRoundTrip | realtime-chat-backend/app/api/auth.py:39 | the digits' value is the number |
| Common.NatToDecimalInjective | realtime-chat-backend/app/sockets/chat_events.py:186 | different numbers have different decimal strings |
| Common.ParseInt | realtime-chat-backend/app/sockets/chat_events.py:168 | `int(s)` refuses text that is blank by `int()`'s whitespace |
| Common.ParseIntMeaning | realtime-chat-backend/app/sockets/chat_events.py:168 | `int(s)` succeeds iff the text, once the whitespace `int()` skips is gone (not U+001C to U+001F), is an optional `+` or `-` followed by one or more decimal digits, and then gives the signed value of the digits |
| Common.ParseTrimmedMeaning | realtime-chat-backend/app/sockets/chat_events.py:168 | once stripped, the text parses iff it is a sign and digits, to their signed value |
| Common.SignedLiteralUnique | realtime-chat-backend/app/sockets/chat_events.py:168 | a text splits into sign and digits in at most one way |
| Common.ParseRefusesNonDigit | realtime-chat-backend/app/sockets/chat_events.py:168 | any stripped text holding a non-digit other than a leading sign is refused (letters, inner spaces, a second sign) |
| Common.ParseRefusesBareSign | realtime-chat-backend/app/sockets/chat_events.py:168 | a sign with no digits is refused |
| Common.ParseSignedInSpace | realtime-chat-backend/app/sockets/chat_events.py:168 | whitespace `int()` skips around a negative literal is ignored and the sign kept: `-` and digits inside such whitespace give minus their value |
| Common.TrimAround | realtime-chat-backend/app/sockets/chat_events.py:125 | stripping removes exactly the whitespace around a text that neither starts nor ends with whitespace |
| Common.TrimStartSkips | realtime-chat-backend/app/sockets/chat_events.py:125 | leading whitespace is removed up to the first other character |
| Common.TrimEndSkips | realtime-chat-backend/app/sockets/chat_events.py:125 | trailing whitespace is removed back to the last other character |
| Common.ParseRefusesSeparator | realtime-chat-backend/app/sockets/chat_events.py:168 | `strip()` removes a leading U+001F but `int()` does not: `"\x1f5".strip()` is `"5"` while `int("\x1f5")` is refused |
| Common.ParseDigits | realtime-chat-backend/app/sockets/chat_events.py:168 | `int()` of a non-empty run of digits is its decimal value |
| Common.ParseTrimmedDigits | realtime-chat-backend/app/sockets/chat_events.py:168 | with no sign, a trimmed run of digits parses to its value |
| Common.TrimNoSpace | realtime-chat-backend/app/sockets/chat_events.py:125 | text without whitespace is its own strip |
| Common.ParseDecimalRoundTrip | realtime-chat-backend/app/sockets/chat_events.py:32 | `int(str(n)) == n` |
| Common.Split | realtime-chat-frontend/components/Avatar.tsx:33 | `split(' ')`: at least one piece, none containing the separator |
| Common.JoinSplit | realtime-chat-frontend/components/Avatar.tsx:33 | joining the pieces with the separator gives back the text |
| Common.SplitAppend | realtime-chat-frontend/components/Avatar.tsx:33 | splitting `x + sep + y` splits x and y separately |
| Common.Take | realtime-chat-frontend/components/Avatar.tsx:36 | `slice(0, n)`: the first n elements, or all when fewer |
| Common.ToUpperConcat | realtime-chat-frontend/app/settings/page.tsx:42-44 | upper-casing a join is joining the upper-cased pieces |
| Common.ConcatSingles | realtime-chat-frontend/components/Avatar.tsx:37 | joining one-character strings keeps one character each, in order |
| SocketClient.ClientSocket.constructor | realtime-chat-frontend/lib/socket.ts:12-18 | a new socket carries the stored token, is not yet connected and has emitted nothing |
| SocketClient.ClientSocket.SetConnected | realtime-chat-frontend/lib/socket.ts:21-27 | the transport's connect and disconnect set the flag |
| SocketClient.ClientSocket.Emit | realtime-chat-frontend/lib/socket.ts:61 | the event is appended to the wire log |
| SocketClient.ClientSocket.Disconnect | realtime-chat-frontend/lib/socket.ts:49 | the socket is no longer connected |
| SocketClient.AfterEmit | realtime-chat-frontend/lib/socket.ts:55-61 | connected: the log grows by exactly that event; not connected: unchanged |
| SocketClient.DisconnectedEmitsNothing | realtime-chat-frontend/lib/socket.ts:54-127 | no sequence of emitter calls on a disconnected socket reaches the wire |
| SocketClient.EmitAll | realtime-chat-frontend/lib/socket.ts:54-127 | on a connected socket the events reach the wire in call order |
| SocketClient.SocketManager.constructor | realtime-chat-frontend/lib/socket.ts:5 | no socket yet |
| SocketClient.SocketManager.InitializeSocket | realtime-chat-frontend/lib/socket.ts:7-41 | idempotent: an existing socket is returned unchanged; otherwise a fresh one with the stored token becomes the singleton |
| SocketClient.SocketManager.GetSocket | realtime-chat-frontend/lib/socket.ts:43-45 | returns the singleton |
| SocketClient.SocketManager.DisconnectSocket | realtime-chat-frontend/lib/socket.ts:47-52 | the old socket is disconnected with its log untouched and the singleton is reset |
| SocketClient.SocketManager.EmitIfConnected | realtime-chat-frontend/lib/socket.ts:56-61 | the guard shared by every emitter: connected, the event is appended to the log; not connected, the log is unchanged; the connection state is unchanged either way |
| SocketClient.SocketManager.JoinPublicChat | realtime-chat-frontend/lib/socket.ts:55-62 | `join_public` is emitted iff connected; the connection state is unchanged |
| SocketClient.SocketManager.LeavePublicChat | realtime-chat-frontend/lib/socket.ts:64-71 | `leave_public` is emitted iff connected; the connection state is unchanged |
| SocketClient.SocketManager.JoinPrivateChat | realtime-chat-frontend/lib/socket.ts:73-80 | `join_private` with the other user's id is emitted iff connected; the connection state is unchanged |
| SocketClient.SocketManager.LeavePrivateChat | realtime-chat-frontend/lib/socket.ts:82-89 | `leave_private` with the other user's id is emitted iff connected; the connection state is unchanged |
| SocketClient.SocketManager.SendPublicMessage | realtime-chat-frontend/lib/socket.ts:91-98 | `send_public_message` with the content is emitted iff connected; the connection state is unchanged |
| SocketClient.SocketManager.SendPrivateMessage | realtime-chat-frontend/lib/socket.ts:100-110 | `send_private_message` with recipient and content is emitted iff connected; the connection state is unchanged |
| SocketClient.SocketManager.GetOnlineUsers | realtime-chat-frontend/lib/socket.ts:112-119 | `get_online_users` is emitted iff connected; the connection state is unchanged |
| SocketClient.SocketManager.MarkChatAsRead | realtime-chat-frontend/lib/socket.ts:121-127 | `mark_chat_read` with the chat id is emitted iff connected; the connection state is unchanged |
| SocketClient.Reconnect | realtime-chat-frontend/lib/socket.ts:7-52 | disconnect then initialize yields a fresh socket with the current token and disconnects the old one |
| ApiClient.Browser.constructor | realtime-chat-frontend/lib/api.ts:14 | the storage and location given |
| ApiClient.Browser.GetItem | realtime-chat-frontend/lib/api.ts:14 | a value iff the key is stored, and then the stored one |
| ApiClient.Browser.SetItem | realtime-chat-frontend/components/AuthForm.tsx:82-84 | only that key changes |
| ApiClient.Browser.RemoveItem | realtime-chat-frontend/lib/api.ts:26-27 | only that key is removed |
| ApiClient.Browser.Navigate | realtime-chat-frontend/lib/api.ts:28 | the location becomes the path |
| ApiClient.RequestConfig.constructor | realtime-chat-frontend/lib/api.ts:13 | the url and headers given |
| ApiClient.WithBearer | realtime-chat-frontend/lib/api.ts:14-17 | a truthy token sets `Authorization: Bearer <token>`; otherwise the headers are unchanged; no other header changes |
| ApiClient.WithBearerIdempotent | realtime-chat-frontend/lib/api.ts:13-19 | intercepting twice is intercepting once |
| ApiClient.InterceptRequest | realtime-chat-frontend/lib/api.ts:13-19 | returns the same config, its headers updated as above |
| ApiClient.LoginFailureKeepsSession | realtime-chat-frontend/lib/api.ts:25 | no error from a request whose url contains `/auth/login`, whatever comes before or after it, logs the user out |
| ApiClient.InterceptError | realtime-chat-frontend/lib/api.ts:22-32 | the error is always rejected unchanged; a 401 from any other request clears token and user and goes to `/login`, and any other error changes nothing |
| ApiClient.SaveFileBody | realtime-chat-frontend/lib/api.ts:35-43 | the posted body carries the given fields, never a null association, and an association key iff it was given |
| ApiClient.SaveFileMeetsServerChecks | realtime-chat-frontend/lib/api.ts:35-43 | the body always has the required keys; the server's association and size checks pass iff exactly one association is given and the size is within 5 MiB |
| MessageBubble.GetFileIcon | realtime-chat-frontend/components/MessageBubble.tsx:112-119 | first match wins: pdf, then word/document, then sheet/excel, then presentation/powerpoint, then zip/rar/archive, else the generic icon |
| MessageBubble.FileIconExamples | realtime-chat-frontend/components/MessageBubble.tsx:112-119 | `application/pdf` gets the PDF icon and `application/zip` the archive icon |
| MessageBubble.OfficeTypeGetsWordIcon | realtime-chat-frontend/components/MessageBubble.tsx:113-115 | every Office Open XML type (`application/vnd.openxmlformats-officedocument.` followed by text without `pdf`) gets the Word icon, because `officedocument` contains `doc` |
| MessageBubble.OfficeFormatsGetWordIcon | realtime-chat-frontend/components/MessageBubble.tsx:113-115 | so the workbook (`…spreadsheetml.sheet`) and the slide deck (`…presentationml.presentation`) get the Word icon, not the spreadsheet or presentation one |
| MessageBubble.RenderAttachment | realtime-chat-frontend/components/MessageBubble.tsx:93-142 | an image type shows the image; anything else shows the icon and the name; both link to the file's URL |
| MessageBubble.Render | realtime-chat-frontend/components/MessageBubble.tsx:10-91 | file messages show the attachment and text messages the text; own messages sit on the right with the avatar after; the sender's name shows iff not own and not private |
| MessageInput.ProcessFile | realtime-chat-frontend/components/MessageInput.tsx:36-50 | keeps name, size and type, uses the object URL, and has a thumbnail iff the type starts with `image/` |
| MessageInput.ProcessFiles | realtime-chat-frontend/components/MessageInput.tsx:35-51 | one processed file per file, position by position |
| MessageInput.RemoveAt | realtime-chat-frontend/components/MessageInput.tsx:70-72 | removes exactly that index, or nothing when it is out of range |
| MessageInput.EnabledButtonSends | realtime-chat-frontend/components/MessageInput.tsx:154 | an enabled send button always has something to send, and a blank message without files disables it |
| MessageInput.Composer.constructor | realtime-chat-frontend/components/MessageInput.tsx:16-18 | empty message, no files, not uploading |
| MessageInput.Composer.SetMessage | realtime-chat-frontend/components/MessageInput.tsx:142 | the message is the typed text |
| MessageInput.Composer.AddFiles | realtime-chat-frontend/components/MessageInput.tsx:22-24 | dropped or picked files are appended after the existing ones |
| MessageInput.Composer.RemoveFile | realtime-chat-frontend/components/MessageInput.tsx:70-72 | the list becomes the list without that index |
| MessageInput.Composer.BeginSend | realtime-chat-frontend/components/MessageInput.tsx:29-53 | nothing to send (blank text after trimming and no files): nothing happens; otherwise uploading starts and the text as typed, untrimmed, goes out with the processed files |
| MessageInput.Composer.FinishSend | realtime-chat-frontend/components/MessageInput.tsx:53-60 | uploading ends; a success clears message and files, and a failure keeps them |
| MessageInput.HandleSend | realtime-chat-frontend/components/MessageInput.tsx:29-61 | the two halves in sequence: with something to send, the send goes out and the composer is cleared on success |
| ChatWindow.FromPublicDict | realtime-chat-frontend/components/ChatWindow.tsx:32-44 | reads id, content, timestamp and the author under `user` |
| ChatWindow.ToUiMessage | realtime-chat-frontend/components/ChatWindow.tsx:61-73 | ids become decimal strings that parse back to the server ids; sender id and sender agree; empty email; a text message with no file |
| ChatWindow.FetchedIdsDistinct | realtime-chat-frontend/components/ChatWindow.tsx:33 | different server ids give different list keys |
| ChatWindow.FirstOther | realtime-chat-frontend/components/ChatWindow.tsx:57 | `find(p => p.id !== me)`: None iff every participant is the viewer; otherwise the first participant who is not |
| ChatWindow.FetchedIsOwn | realtime-chat-frontend/components/ChatWindow.tsx:178 | a fetched message is own iff the viewer's id is the decimal author id |
| ChatWindow.SeparatorsStableUnderAppend | realtime-chat-frontend/components/ChatWindow.tsx:159-165 | appending keeps earlier date separators, and the first message always has one |
| ChatWindow.BuildOutgoing | realtime-chat-frontend/components/ChatWindow.tsx:195-227 | the loop builds exactly `Outgoing`: the text message when not blank, then the file messages |
| ChatWindow.AppendFileMessages | realtime-chat-frontend/components/ChatWindow.tsx:210-227 | the `forEach` appends one message per file, in order |
| ChatWindow.OutgoingAt | realtime-chat-frontend/components/ChatWindow.tsx:195-227 | position k holds the text message, or file message k minus the text count |
| ChatWindow.OutgoingShape | realtime-chat-frontend/components/ChatWindow.tsx:198-227 | length is one text message (unless blank) plus one per file; the untrimmed text comes first; file i is at its offset |
| ChatWindow.FileMessageCarriesFile | realtime-chat-frontend/components/ChatWindow.tsx:211-226 | a file message has empty content and carries name, size, type, URL and thumbnail |
| ChatWindow.OutgoingIsOwn | realtime-chat-frontend/components/ChatWindow.tsx:199-216 | every sent message is rendered as the viewer's own and stamped with the send time |
| ChatWindow.TextIdNotFileId | realtime-chat-frontend/components/ChatWindow.tsx:200-212 | the text id differs from every file id |
| ChatWindow.FileIdsDistinct | realtime-chat-frontend/components/ChatWindow.tsx:212 | file ids of one send differ |
| ChatWindow.OutgoingIdsDistinct | realtime-chat-frontend/components/ChatWindow.tsx:199-227 | the ids of one send are pairwise distinct, so the list keys are unique |
| ChatWindow.ChatWindowState.constructor | realtime-chat-frontend/components/ChatWindow.tsx:14-16 | no messages, not loading, zero members |
| ChatWindow.ChatWindowState.FetchMessages | realtime-chat-frontend/components/ChatWindow.tsx:19-86 | no chat empties the list; a failure empties it; the public chat loads `/messages` and the member count (1 on failure); a private chat loads the first other participant's conversation or keeps the list when there is none |
| ChatWindow.ChatWindowState.OnSendMessage | realtime-chat-frontend/components/ChatWindow.tsx:194-229 | the outgoing messages are appended after all existing ones |
| ChatPage.WithAvatar | realtime-chat-frontend/app/chat/page.tsx:32 | `avatar` is `avatar_url`; name and email kept; the id parses back |
| ChatPage.ToChat | realtime-chat-frontend/app/chat/page.tsx:50-64 | a private chat named after the other user, with viewer and other user, the server's unread count, and a last message iff the server sent one |
| ChatPage.FetchedChatsKeyed | realtime-chat-frontend/app/chat/page.tsx:50-51 | distinct server chat ids give distinct chat ids |
| ChatPage.MarkRead | realtime-chat-frontend/app/chat/page.tsx:80 | the chats with that id get unread 0, every other chat is unchanged |
| ChatPage.MarkReadClears | realtime-chat-frontend/app/chat/page.tsx:80 | afterwards no chat with that id has unread messages, and marking again changes nothing |
| ChatPage.DraggedWidth | realtime-chat-frontend/app/chat/page.tsx:147-150 | always within 250..500, equal to the dragged width when it is in range, clamped to the bound it passes otherwise |
| ChatPage.ChatPageState.constructor | realtime-chat-frontend/app/chat/page.tsx:12-18 | no user, no chat, sidebar closed at width 410 |
| ChatPage.ChatPageState.Mount | realtime-chat-frontend/app/chat/page.tsx:21-72 | without token or stored user: redirect to `/login` and nothing else; otherwise the viewer is set and the chats are the mapped reply (kept on failure) |
| ChatPage.ChatPageState.HandleSelectChat | realtime-chat-frontend/app/chat/page.tsx:74-85 | the chat is selected; the read request goes out iff it has unread messages; only a successful request resets the count |
| ChatPage.ChatPageState.HandleResize | realtime-chat-frontend/app/chat/page.tsx:89-95 | the sidebar is open iff the window is at least 768 wide |
| ChatPage.ChatPageState.HandleMouseMove | realtime-chat-frontend/app/chat/page.tsx:147-150 | the width is the clamped dragged width |
| Avatar.FirstUpper | realtime-chat-frontend/components/Avatar.tsx:34 | empty iff the word is empty; otherwise its upper-cased first character |
| Avatar.NonEmpty | realtime-chat-frontend/components/Avatar.tsx:35 | `filter(Boolean)` keeps no empty string |
| Avatar.InitialLetters | realtime-chat-frontend/components/Avatar.tsx:32-35 | one character per non-empty word |
| Avatar.InitialsShape | realtime-chat-frontend/components/Avatar.tsx:32-37 | at most two characters, the upper-cased first letters of the first words, in order |
| Avatar.EmptyNameNoInitials | realtime-chat-frontend/components/Avatar.tsx:32-37 | an empty name has no initials |
| Avatar.TwoWordInitials | realtime-chat-frontend/components/Avatar.tsx:32-37 | "first last" gives the first letter of each |
| Avatar.SplitWord | realtime-chat-frontend/components/Avatar.tsx:33 | a word without spaces is one piece |
| Avatar.LeadingSpaceIgnored | realtime-chat-frontend/components/Avatar.tsx:32-37 | a leading space does not change the initials |
| Avatar.RepeatedSpaceIgnored | realtime-chat-frontend/components/Avatar.tsx:32-37 | a doubled space between words does not change the initials |
| Avatar.ConcatSkipsEmpty | realtime-chat-frontend/components/Avatar.tsx:35-37 | dropping empty pieces does not change the join |
| Avatar.JoinedInitialsAgree | realtime-chat-frontend/components/ChatSidebar.tsx:347-352 | the `n => n[0]` spelling of initials, upper-cased before or after `slice(0, 2)`, equals the Avatar component's |
| Avatar.Render | realtime-chat-frontend/components/Avatar.tsx:6-39 | the picture iff `avatar` is truthy, otherwise the initials; the title is the username; the size class follows the size, `md` by default |
| Avatar.SizeClassesDistinct | realtime-chat-frontend/components/Avatar.tsx:7-11 | the three sizes have different classes |
| ChatSidebar.FilteredChats | realtime-chat-frontend/components/ChatSidebar.tsx:49-51 | exactly the chats whose name contains the query ignoring case, each as often as in the list |
| ChatSidebar.EmptyQueryKeepsAll | realtime-chat-frontend/components/ChatSidebar.tsx:49-51 | an empty query lists every chat in order |
| ChatSidebar.NarrowingQueryNarrows | realtime-chat-frontend/components/ChatSidebar.tsx:49-51 | typing more never adds a chat |
| ChatSidebar.PublicChat | realtime-chat-frontend/components/ChatSidebar.tsx:53-59 | the public chat: fixed id and name, the viewer alone, the unread count handed down |
| ChatSidebar.AllChats | realtime-chat-frontend/components/ChatSidebar.tsx:61 | the public chat first, then the filtered chats; so the list is never empty and the "No chats yet" branch at line 121 cannot show |
| ChatSidebar.AsListed | realtime-chat-frontend/components/ChatSidebar.tsx:39 | the id parses back, name and email kept, and no picture (`u.avatar` is absent from the reply) |
| ChatSidebar.OtherUsers | realtime-chat-frontend/components/ChatSidebar.tsx:39 | no listed user is the viewer, and every other user of the reply is listed |
| ChatSidebar.PickerOffersEveryoneElse | realtime-chat-frontend/components/ChatSidebar.tsx:33-39 | against `/users/`: a registered user is offered iff it is not the viewer |
| ChatSidebar.ProvisionalChat | realtime-chat-frontend/components/ChatSidebar.tsx:292-298 | `temp-<id>`, named after the picked user, private, viewer and picked user, nothing unread |
| ChatSidebar.ProvisionalIdIsFresh | realtime-chat-frontend/components/ChatSidebar.tsx:293 | a provisional id never equals the public chat's or a fetched chat's |
| ChatSidebar.ProvisionalChatTalksToPicked | realtime-chat-frontend/components/ChatSidebar.tsx:292-298 | the window of a provisional chat talks to the picked user |
| ChatSidebar.PlaceholderName | realtime-chat-frontend/components/ChatSidebar.tsx:156 | the other participant's name when non-empty, otherwise the chat's name |
| ChatSidebar.RenderRow | realtime-chat-frontend/components/ChatSidebar.tsx:128-192 | highlighted iff selected; group icon iff public; picture iff the other participant's avatar is truthy, else initials; preview iff a last message; badge iff unread > 0 |
| ChatSidebar.ProvisionalRow | realtime-chat-frontend/components/ChatSidebar.tsx:292-298 | a picked user's row is highlighted with initials, no preview and no badge |
| ChatSidebar.ProfileInitials | realtime-chat-frontend/components/ChatSidebar.tsx:346-352 | the profile modal's letters equal the Avatar component's |
| ChatSidebar.ProfileBadge | realtime-chat-frontend/components/ChatSidebar.tsx:336-353 | picture iff truthy avatar; agrees with what `Avatar` shows |
| ChatSidebar.ConfirmLogout | realtime-chat-frontend/components/ChatSidebar.tsx:220-233 | socket disconnected and reset, token and user removed, browser at `/login` |
| AuthForm.MessagesDistinct | realtime-chat-frontend/components/AuthForm.tsx:32-66 | the validation messages differ pairwise |
| AuthForm.EmailPatternCharacterisation | realtime-chat-frontend/components/AuthForm.tsx:41 | the regular expression holds iff the address splits at an `@` and a later `.` into three non-empty runs without whitespace or `@` |
| AuthForm.SplitHasShape | realtime-chat-frontend/components/AuthForm.tsx:41 | a split the regular expression matches gives an address of the shape |
| AuthForm.ShapeHasSplit | realtime-chat-frontend/components/AuthForm.tsx:41 | an address of the shape is matched by the regular expression at its `@` and chosen `.` |
| AuthForm.EmailExamples | realtime-chat-frontend/components/AuthForm.tsx:41 | `bob@mail.io` matches; addresses without a dot after the `@` do not |
| AuthForm.Validate | realtime-chat-frontend/components/AuthForm.tsx:32-66 | as written: each message iff the earlier checks pass and its own fails, in source order for each mode; accepted iff all pass; registration never answers with the short-username message |
| AuthForm.ShortUsernameLockedOut | realtime-chat-frontend/components/AuthForm.tsx:32-66 | as written, registration accepts `bob` and login refuses it |
| AuthForm.ValidateIntended | realtime-chat-frontend/components/AuthForm.tsx:54-61 | login unchanged; registration also refuses a username shorter than 4 right after the required check |
| AuthForm.RegisteredCanLogIn | realtime-chat-frontend/components/AuthForm.tsx:32-66 | with the intended chain, whatever registration accepts login accepts |
| AuthForm.RegisterBody | realtime-chat-frontend/components/AuthForm.tsx:71-75 | the three fields as typed, no avatar |
| AuthForm.LoginBody | realtime-chat-frontend/components/AuthForm.tsx:76-79 | username and password as typed |
| AuthForm.RequestsCarryEveryKey | realtime-chat-frontend/components/AuthForm.tsx:70-91 | the form's requests never hit the server's missing-key 500: register is accepted or a duplicate, login is 200 or 401 |
| AuthForm.WithField | realtime-chat-frontend/components/AuthForm.tsx:108-113 | the named field takes the value; every other field keeps its own |
| AuthForm.WithFieldIdempotent | realtime-chat-frontend/components/AuthForm.tsx:108-113 | typing the same value twice is typing it once |
| AuthForm.AuthFormState.constructor | realtime-chat-frontend/components/AuthForm.tsx:16-24 | empty form, no error, not loading |
| AuthForm.AuthFormState.HandleChange | realtime-chat-frontend/components/AuthForm.tsx:108-113 | the form after the change |
| AuthForm.AuthFormState.BeginSubmit | realtime-chat-frontend/components/AuthForm.tsx:27-68 | the request goes out iff `Validate` (the checks as written) accepts the form; if not, the error is its first failing message and loading is unchanged; if so, the error is cleared and loading starts |
| AuthForm.AuthFormState.FinishSubmit | realtime-chat-frontend/components/AuthForm.tsx:80-105 | success stores token and user and goes to `/chat`; failure shows the server's message or "An error occurred"; loading ends |
| SettingsPage.GetInitials | realtime-chat-frontend/app/settings/page.tsx:39-46 | equals the Avatar component's initials: at most two, none for an empty name |
| SettingsPage.Or | realtime-chat-frontend/app/settings/page.tsx:53-55 | `a \|\| b` on an optional string |
| SettingsPage.ProfileFromUser | realtime-chat-frontend/app/settings/page.tsx:52-56 | picture from `avatar_url`, then `avatar`, then the default (never empty); name and email default to `''` |
| SettingsPage.FallbackShowsInitials | realtime-chat-frontend/app/settings/page.tsx:208 | without a picture the default picture is stored but the initials are shown; a real picture is shown |
| SettingsPage.WithProfileField | realtime-chat-frontend/app/settings/page.tsx:67-70 | the named field takes the value; the others keep theirs |
| SettingsPage.ValidatePasswordChange | realtime-chat-frontend/app/settings/page.tsx:106-118 | each message iff the earlier checks pass and its own fails, in order; accepted iff both passwords are given, the confirmation matches and the length is at least 6 |
| SettingsPage.NewPasswordPassesLogin | realtime-chat-frontend/app/settings/page.tsx:115 | a new password the page accepts also passes the login form's password check |
| SettingsPage.ChangePasswordError | realtime-chat-frontend/app/settings/page.tsx:129-134 | "Current password is incorrect" iff the status is 401, otherwise the generic message |
| SettingsPage.SettingsState.constructor | realtime-chat-frontend/app/settings/page.tsx:26-37 | empty profile and form, loading, no modal |
| SettingsPage.SettingsState.Load | realtime-chat-frontend/app/settings/page.tsx:48-65 | the loaded user becomes the profile (kept on failure); loading ends |
| SettingsPage.SettingsState.HandleInputChange | realtime-chat-frontend/app/settings/page.tsx:67-70 | the profile after the change |
| SettingsPage.SettingsState.BeginChangePassword | realtime-chat-frontend/app/settings/page.tsx:106-122 | a failing check is reported and nothing else changes; otherwise busy and the current and new passwords are sent |
| SettingsPage.SettingsState.FinishChangePassword | realtime-chat-frontend/app/settings/page.tsx:123-137 | success closes the modal and clears the form; failure keeps both and reports the error; busy ends |
| SettingsPage.HandleLogout | realtime-chat-frontend/app/settings/page.tsx:140-151 | the same end state as the sidebar's logout |

## Findings

| source | as written | input that shows it | evidently intended | confidence | as-written member | corrected member |
|---|---|---|---|---|---|---|
| realtime-chat-frontend/components/AuthForm.tsx:32-61 | registration skips the minimum username length of 4 that login enforces | register `bob` / `bob@mail.io` / `secret` / `secret`: registration accepts it, and the login form then refuses `bob` with "Username must be at least 4 characters long" | registration applies the same minimum length, so every registered account can use the login form | medium; not executed | AuthForm.ShortUsernameLockedOut (about AuthForm.Validate) | AuthForm.ValidateIntended, with AuthForm.RegisteredCanLogIn |

## Left out

- I/O, the network and the transport: Flask routing, axios, the socket.io client and its reconnection policy, and Cloudinary uploads. Their results are parameters.
- JWT encoding and decoding: decoding is the parameter `decodeSub`. Token issuance is represented only by the identity string it carries.
- Password hashing: it is the parameter `hash`. The `User` model (`to_dict`, `set_password`, `check_password`) is not part of this model. The user view is taken to be id, username, email and avatar URL.
- Persistence failures: a commit never fails, except where the source itself makes it fail (an anonymous sender has no user id). Rollback is not modelled.
- Concurrency: handlers are atomic sequential steps.
- ChatWindow.OutgoingIsOwn / Outgoing: the clock is read once per send, so every message of one send carries the same `now` in its id, its timestamp and its file id. The handler calls `Date.now()` and `new Date()` separately for each of them (ChatWindow.tsx:200, 204, 212, 216, 219), so across a millisecond tick the messages of one send can carry different stamps; `m.timestamp == now` holds only under the single reading.
- Time: timestamps and `Date.now()` are integer parameters. `isDifferentDay` and `formatDateLabel` live in `lib/utils`, which is not part of this model, so "same day" is a parameter. Locale time formatting and the floating-point MB sizes from `toFixed` are left out.
- Text: whitespace is each language's own set (Python `str.isspace` for `strip`; for `int()`, the C-locale spaces below 128 and `str.isspace` above, so U+001C to U+001F are not skipped; JavaScript WhiteSpace and LineTerminator for `trim` and `\s`); case mapping is ASCII only. String lengths count characters, not UTF-16 code units. `int()` is read as optional sign and decimal digits around whitespace; underscores and non-ASCII digits are not modelled.
- JSON values: ids are natural numbers on the server and decimal strings on the client. A `null` username at login is modelled (it matches nobody, so 401); a `null` password is treated as a missing key, since `check_password` is not part of this model; on registration `null` values are not modelled, because what they do depends on the `User` model's column constraints and `set_password`, which are not part of this model. Other JSON types a client could send (floats, booleans, objects) are not modelled. `file_size` is an integer.
- Schema mismatches in the source:
  - The `File` model declares `private_message_id` and no `to_dict`, while `files.py` uses `private_chat_id`. The model follows the handlers.
  - `PrivateMessage` has no `to_dict`. Even with `get_chat_between_users` defined, every reply and broadcast that serializes a private message would raise `AttributeError`: `messages.py:48`, `messages.py:75` (after the message is committed at line 73, so the client gets a 500 for a stored message) and `chat_events.py:269` (after the commit at line 266; the handler's `except` rolls back, which no longer undoes the commit, and emits "Failed to send message"). The model gives the evidently intended behaviour and returns the record.
- `get_chat_between_users` is not defined anywhere. As written, every private endpoint and handler that calls it raises `AttributeError` before touching the database (`messages.py:43`, `61` and `109`; `chat_events.py:180`, `218` and `248`), so no private chat can be read, joined, written or deleted from. The model gives the evidently intended behaviour: the first chat of the unordered pair.
- The `/chats` endpoints and `mark_chat_read` on the server are not part of the repository. The replies of the endpoints are parameters, and the emitter is modelled on the client only.
- `getAuthUser`, `updateAuthUser` and `changePassword`: their outcomes are parameters. `handleAvatarChange` and `handleSave` only forward to these calls and to Cloudinary, so they are left out.
- `JSON.parse` and `JSON.stringify` of the stored user are parameters.
- ApiClient.InterceptError: the response success handler is the identity function and is not modelled separately.
- ApiClient.SaveFileBody: the POST to `/files/` and returning `response.data` are transport. Only the posted body is modelled.
- Rendering, animation, styling, toasts, console logging, scroll-into-view, and modal and search-box toggles are left out.
- `socketio_demo.py` (an interactive script), configuration and application wiring are left out.

The client has no pending/sent message states, retry queue, echo reconciliation or unread-count push events. None are modelled, because none exist in the code.
