/** Row types of the backend's SQLAlchemy models (users, messages, private_chats,
    private_messages, files, token_blocklist) and the serialisers built on them. */
module Records {
  import opened Common
  import opened Tables

  /** A `users` row. The User model is not part of this model; its columns are the ones the
      handlers read and write. The password is kept only as the hash `set_password` stores. */
  datatype User = User(id: nat, username: string, email: string, passwordHash: string,
                       avatarUrl: Option<string>)

  /** A `messages` row (public chat). */
  datatype Message = Message(id: nat, content: string, timestamp: int, userId: nat)

  /** A `private_chats` row: the conversation between two users. */
  datatype PrivateChat = PrivateChat(id: nat, user1Id: nat, user2Id: nat, createdAt: int)

  /** A `private_messages` row. */
  datatype PrivateMessage = PrivateMessage(id: nat, content: string, timestamp: int,
                                           senderId: nat, chatId: nat)

  /** A `files` row, with the columns the files API writes. */
  datatype FileRecord = FileRecord(id: nat, filename: string, fileUrl: string, fileSize: int,
                                   uploadedAt: int, uploaderId: nat,
                                   publicMessageId: Option<int>, privateChatId: Option<int>)

  /** A key of a JSON request body: missing, explicitly `null`, or given. */
  datatype Field<T> = Absent | Null | Given(value: T)

  /** A handler's reply: a JSON body with a status code. `Err` carries the "message" text. */
  datatype Reply<T> = Ok(status: int, body: T) | Err(status: int, message: string)

  /** The status Flask answers with when a handler raises. */
  const InternalError := 500

  /** An early return of a handler: status and message. */
  datatype Rejection = Rejection(status: int, message: string)

  /** What an uncaught exception (a missing key, an attribute of None, a NOT NULL violation at
      commit) turns into. */
  const Crash := Rejection(InternalError, "Internal Server Error")

  function UserId(u: User): int { u.id }
  function MessageId(m: Message): int { m.id }
  function ChatId(c: PrivateChat): int { c.id }
  function PrivateMessageId(m: PrivateMessage): int { m.id }
  function FileId(f: FileRecord): int { f.id }
  function MessageTime(m: Message): int { m.timestamp }
  function PrivateMessageTime(m: PrivateMessage): int { m.timestamp }
  function FileTime(f: FileRecord): int { f.uploadedAt }

  /** The public view of a user (`user.to_dict()`): everything but the password hash. */
  datatype UserView = UserView(id: nat, username: string, email: string, avatarUrl: Option<string>)

  function View(u: User): (v: UserView)
    ensures v.id == u.id && v.username == u.username && v.email == u.email
    ensures v.avatarUrl == u.avatarUrl
  {
    UserView(u.id, u.username, u.email, u.avatarUrl)
  }

  // ---------------------------------------------------------------- Message.to_dict

  /** The "user" sub-object of a serialised message. */
  datatype Author = Author(id: nat, username: string, avatarUrl: Option<string>)

  /** The dictionary `Message.to_dict()` returns: exactly the keys id, content, timestamp,
      user and files. */
  datatype MessageDict = MessageDict(id: nat, content: string, timestamp: int, user: Author,
                                     files: seq<FileRecord>)

  /** `File.query.filter_by(public_message_id=id).all()`. */
  function FilesOfMessage(files: seq<FileRecord>, id: nat): (r: seq<FileRecord>)
    ensures forall f :: f in r <==> f in files && f.publicMessageId == Some(id)
  {
    Where(files, (f: FileRecord) => f.publicMessageId == Some(id))
  }

  /** `Message.to_dict()`. `None` stands for the AttributeError raised when the author row
      is gone (`self.user` is None). */
  function MessageToDict(m: Message, users: seq<User>, files: seq<FileRecord>): (r: Option<MessageDict>)
    ensures r.None? <==> Lookup(users, UserId, m.userId).None?
    ensures r.Some? ==> var u := Lookup(users, UserId, m.userId).value;
      && r.value.id == m.id && r.value.content == m.content && r.value.timestamp == m.timestamp
      && r.value.user == Author(u.id, u.username, u.avatarUrl)
      && u.id == m.userId
      && (forall f :: f in r.value.files <==> f in files && f.publicMessageId == Some(m.id))
  {
    match Lookup(users, UserId, m.userId)
    case None => None
    case Some(u) =>
      var attached := FilesOfMessage(files, m.id);
      Some(MessageDict(m.id, m.content, m.timestamp, Author(u.id, u.username, u.avatarUrl),
                       if attached != [] then attached else []))
  }

  // ---------------------------------------------------------------- PrivateChat lookup

  /** The chat belongs to the unordered pair {a, b}. */
  predicate Between(c: PrivateChat, a: int, b: int) {
    (c.user1Id == a && c.user2Id == b) || (c.user1Id == b && c.user2Id == a)
  }

  /** `PrivateChat.get_chat_between_users(a, b)`. The method is called by the handlers but not
      defined in the model class; this model reads it as the first chat (in id order) whose
      two users are {a, b} in either order, as the ownership test of the files API does. */
  function ChatBetween(chats: seq<PrivateChat>, a: int, b: int): (r: Option<PrivateChat>)
    ensures r.Some? ==> r.value in chats && Between(r.value, a, b)
    ensures r.None? <==> forall c :: c in chats ==> !Between(c, a, b)
  {
    if chats == [] then None
    else if Between(chats[0], a, b) then Some(chats[0])
    else ChatBetween(chats[1..], a, b)
  }

  /** The lookup does not depend on the order of the two users. */
  lemma {:induction false} ChatBetweenSymmetric(chats: seq<PrivateChat>, a: int, b: int)
    ensures ChatBetween(chats, a, b) == ChatBetween(chats, b, a)
  {
    if chats != [] {
      ChatBetweenSymmetric(chats[1..], a, b);
    }
  }

  /** Appending a chat never changes which chat an already-matched pair finds. */
  lemma {:induction false} ChatBetweenAppend(chats: seq<PrivateChat>, c: PrivateChat, a: int, b: int)
    ensures ChatBetween(chats + [c], a, b) ==
            if ChatBetween(chats, a, b).Some? then ChatBetween(chats, a, b)
            else if Between(c, a, b) then Some(c) else None
  {
    if chats != [] {
      assert (chats + [c])[1..] == chats[1..] + [c];
      ChatBetweenAppend(chats[1..], c, a, b);
    }
  }
}
