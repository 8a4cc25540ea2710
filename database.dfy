/** The backend's database as an in-memory store: one table per model, rows in insertion
    order, and an autoincrement counter per table. `db.session.add` + `commit` is an append
    with the next id; `db.session.delete` + `commit` removes the row. */
module Database {
  import opened Common
  import opened Tables
  import opened Records

  class Db {
    var users: seq<User>
    var messages: seq<Message>
    var chats: seq<PrivateChat>
    var privateMessages: seq<PrivateMessage>
    var files: seq<FileRecord>
    /** `token_blocklist`: the jti of every revoked token. */
    var blocklist: seq<string>

    var nextUserId: nat
    var nextMessageId: nat
    var nextChatId: nat
    var nextPrivateMessageId: nat
    var nextFileId: nat

    /** Primary keys are unique (strictly increasing with insertion) and below the counter. */
    ghost predicate Valid()
      reads this
    {
      && KeysAscending(users, UserId) && KeysBelow(users, UserId, nextUserId)
      && KeysAscending(messages, MessageId) && KeysBelow(messages, MessageId, nextMessageId)
      && KeysAscending(chats, ChatId) && KeysBelow(chats, ChatId, nextChatId)
      && KeysAscending(privateMessages, PrivateMessageId)
      && KeysBelow(privateMessages, PrivateMessageId, nextPrivateMessageId)
      && KeysAscending(files, FileId) && KeysBelow(files, FileId, nextFileId)
      && nextUserId >= 1 && nextMessageId >= 1 && nextChatId >= 1
      && nextPrivateMessageId >= 1 && nextFileId >= 1
    }

    /** An empty database; autoincrement ids start at 1. */
    constructor ()
      ensures Valid()
      ensures users == [] && messages == [] && chats == [] && privateMessages == []
      ensures files == [] && blocklist == []
    {
      users, messages, chats, privateMessages, files, blocklist := [], [], [], [], [], [];
      nextUserId, nextMessageId, nextChatId, nextPrivateMessageId, nextFileId := 1, 1, 1, 1, 1;
    }

    method AddUser(username: string, email: string, passwordHash: string, avatarUrl: Option<string>)
      returns (u: User)
      requires Valid()
      modifies this`users, this`nextUserId
      ensures Valid()
      ensures u == User(old(nextUserId), username, email, passwordHash, avatarUrl)
      ensures users == old(users) + [u] && nextUserId == old(nextUserId) + 1
    {
      u := User(nextUserId, username, email, passwordHash, avatarUrl);
      AppendKeepsAscending(users, UserId, nextUserId, u);
      users := users + [u];
      nextUserId := nextUserId + 1;
    }

    method AddMessage(content: string, userId: nat, now: int) returns (m: Message)
      requires Valid()
      modifies this`messages, this`nextMessageId
      ensures Valid()
      ensures m == Message(old(nextMessageId), content, now, userId)
      ensures messages == old(messages) + [m] && nextMessageId == old(nextMessageId) + 1
    {
      m := Message(nextMessageId, content, now, userId);
      AppendKeepsAscending(messages, MessageId, nextMessageId, m);
      messages := messages + [m];
      nextMessageId := nextMessageId + 1;
    }

    method AddChat(user1Id: nat, user2Id: nat, now: int) returns (c: PrivateChat)
      requires Valid()
      modifies this`chats, this`nextChatId
      ensures Valid()
      ensures c == PrivateChat(old(nextChatId), user1Id, user2Id, now)
      ensures chats == old(chats) + [c] && nextChatId == old(nextChatId) + 1
    {
      c := PrivateChat(nextChatId, user1Id, user2Id, now);
      AppendKeepsAscending(chats, ChatId, nextChatId, c);
      chats := chats + [c];
      nextChatId := nextChatId + 1;
    }

    method AddPrivateMessage(content: string, senderId: nat, chatId: nat, now: int)
      returns (m: PrivateMessage)
      requires Valid()
      modifies this`privateMessages, this`nextPrivateMessageId
      ensures Valid()
      ensures m == PrivateMessage(old(nextPrivateMessageId), content, now, senderId, chatId)
      ensures privateMessages == old(privateMessages) + [m]
      ensures nextPrivateMessageId == old(nextPrivateMessageId) + 1
    {
      m := PrivateMessage(nextPrivateMessageId, content, now, senderId, chatId);
      AppendKeepsAscending(privateMessages, PrivateMessageId, nextPrivateMessageId, m);
      privateMessages := privateMessages + [m];
      nextPrivateMessageId := nextPrivateMessageId + 1;
    }

    method AddFile(filename: string, fileUrl: string, fileSize: int, uploaderId: nat,
                   publicMessageId: Option<int>, privateChatId: Option<int>, now: int)
      returns (f: FileRecord)
      requires Valid()
      modifies this`files, this`nextFileId
      ensures Valid()
      ensures f == FileRecord(old(nextFileId), filename, fileUrl, fileSize, now, uploaderId,
                              publicMessageId, privateChatId)
      ensures files == old(files) + [f] && nextFileId == old(nextFileId) + 1
    {
      f := FileRecord(nextFileId, filename, fileUrl, fileSize, now, uploaderId,
                      publicMessageId, privateChatId);
      AppendKeepsAscending(files, FileId, nextFileId, f);
      files := files + [f];
      nextFileId := nextFileId + 1;
    }
  }
}
