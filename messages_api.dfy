/** `app/api/messages.py`: public and private messages over REST. The caller is the JWT
    identity, passed in as `caller`; `now` is the insertion time. */
module MessagesApi {
  import opened Common
  import opened Tables
  import opened Records
  import opened Database

  const MessageNotFound := Rejection(404, "Message not found")
  const NotYourMessage := Rejection(403, "You can only delete your own messages")
  const InvalidChatOrMessage := Rejection(404, "Invalid chat or message")
  const SelfMessage := Rejection(400, "Cannot send message to yourself")

  // ---------------------------------------------------------------- public messages

  /** `ds` is `[m.to_dict() for m in ms]`, position by position. */
  ghost predicate SerializesTo(ms: seq<Message>, ds: seq<MessageDict>, users: seq<User>, files: seq<FileRecord>) {
    |ds| == |ms| && forall k :: 0 <= k < |ms| ==> MessageToDict(ms[k], users, files) == Some(ds[k])
  }

  /** The list comprehension `[m.to_dict() for m in ms]`; `None` when one of them raises. */
  function SerializeAll(ms: seq<Message>, users: seq<User>, files: seq<FileRecord>): (r: Option<seq<MessageDict>>)
    ensures r.None? <==> exists m :: m in ms && MessageToDict(m, users, files).None?
    ensures r.Some? ==> SerializesTo(ms, r.value, users, files)
  {
    var r := TryMap(ms, m => MessageToDict(m, users, files));
    assert r.None? ==> exists m :: m in ms && MessageToDict(m, users, files).None? by {
      if r.None? {
        var k :| 0 <= k < |ms| && MessageToDict(ms[k], users, files).None?;
        assert ms[k] in ms;
      }
    }
    r
  }

  /** GET /messages: every public message, oldest first. A message whose author row is gone
      makes `to_dict` raise, and the whole request fails. */
  function GetMessages(messages: seq<Message>, users: seq<User>, files: seq<FileRecord>): (r: Reply<seq<MessageDict>>)
    ensures r.Err? <==> exists m :: m in messages && Lookup(users, UserId, m.userId).None?
    ensures r.Err? ==> r == Err(Crash.status, Crash.message)
    ensures r.Ok? ==> r.status == 200
    ensures r.Ok? ==>
      exists ordered :: && SortedBy(ordered, MessageTime) && multiset(ordered) == multiset(messages)
                        && SerializesTo(ordered, r.body, users, files)
  {
    var ordered := OrderBy(messages, MessageTime);
    assert forall m :: m in ordered <==> m in messages by {
      forall m ensures m in ordered <==> m in messages {
        assert m in ordered <==> m in multiset(ordered);
      }
    }
    match SerializeAll(ordered, users, files)
    case None => Err(Crash.status, Crash.message)
    case Some(ds) => Ok(200, ds)
  }

  /** The reply of GET /messages lists exactly the serialised public messages, one per stored
      message, with non-decreasing timestamps. */
  lemma GetMessagesOldestFirst(messages: seq<Message>, users: seq<User>, files: seq<FileRecord>)
    requires GetMessages(messages, users, files).Ok?
    ensures var body := GetMessages(messages, users, files).body;
      && |body| == |messages|
      && (forall i, j :: 0 <= i < j < |body| ==> body[i].timestamp <= body[j].timestamp)
      && (forall m :: m in messages ==> exists d :: d in body && MessageToDict(m, users, files) == Some(d))
      && (forall d :: d in body ==> exists m :: m in messages && MessageToDict(m, users, files) == Some(d))
  {
    var body := GetMessages(messages, users, files).body;
    var ordered :| && SortedBy(ordered, MessageTime) && multiset(ordered) == multiset(messages)
                   && SerializesTo(ordered, body, users, files);
    assert |ordered| == |messages| by {
      assert |multiset(ordered)| == |multiset(messages)|;
    }
    SerializedTimestamps(ordered, body, users, files);
    SerializedMembers(ordered, messages, body, users, files);
  }

  lemma SerializedTimestamps(ordered: seq<Message>, body: seq<MessageDict>, users: seq<User>, files: seq<FileRecord>)
    requires SortedBy(ordered, MessageTime) && SerializesTo(ordered, body, users, files)
    ensures forall i, j :: 0 <= i < j < |body| ==> body[i].timestamp <= body[j].timestamp
  {
    forall i | 0 <= i < |body| ensures body[i].timestamp == ordered[i].timestamp {
      assert MessageToDict(ordered[i], users, files) == Some(body[i]);
    }
  }

  lemma SerializedMembers(ordered: seq<Message>, messages: seq<Message>, body: seq<MessageDict>,
                          users: seq<User>, files: seq<FileRecord>)
    requires multiset(ordered) == multiset(messages) && SerializesTo(ordered, body, users, files)
    ensures forall m :: m in messages ==> exists d :: d in body && MessageToDict(m, users, files) == Some(d)
    ensures forall d :: d in body ==> exists m :: m in messages && MessageToDict(m, users, files) == Some(d)
  {
    forall m | m in messages ensures exists d :: d in body && MessageToDict(m, users, files) == Some(d) {
      assert m in multiset(ordered);
      var k :| 0 <= k < |ordered| && ordered[k] == m;
      assert body[k] in body && MessageToDict(m, users, files) == Some(body[k]);
    }
    forall d | d in body ensures exists m :: m in messages && MessageToDict(m, users, files) == Some(d) {
      var k :| 0 <= k < |body| && body[k] == d;
      assert ordered[k] in multiset(messages);
      assert ordered[k] in messages && MessageToDict(ordered[k], users, files) == Some(d);
    }
  }

  /** POST /messages. A missing "content" key raises before anything is stored; an explicit
      null fails the NOT NULL constraint at commit. Otherwise the message is stored, and the
      reply is its `to_dict` (which raises when the caller's user row is gone). */
  method CreateMessage(db: Db, caller: nat, content: Field<string>, now: int) returns (r: Reply<MessageDict>)
    requires db.Valid()
    modifies db`messages, db`nextMessageId
    ensures db.Valid()
    ensures !content.Given? ==> r == Err(Crash.status, Crash.message) && db.messages == old(db.messages)
    ensures content.Given? ==>
      var m := Message(old(db.nextMessageId), content.value, now, caller);
      && db.messages == old(db.messages) + [m]
      && (r.Err? <==> Lookup(db.users, UserId, caller).None?)
      && (r.Ok? ==> r == Ok(201, MessageToDict(m, db.users, db.files).value))
  {
    if !content.Given? {
      return Err(Crash.status, Crash.message);
    }
    var m := db.AddMessage(content.value, caller, now);
    match MessageToDict(m, db.users, db.files)
    case None => r := Err(Crash.status, Crash.message);
    case Some(d) => r := Ok(201, d);
  }

  /** What CreateMessage stores is authored by the caller and serialises with the caller as
      its user. */
  lemma CreatedMessageAuthoredByCaller(m: Message, users: seq<User>, files: seq<FileRecord>, caller: nat)
    requires m.userId == caller
    requires MessageToDict(m, users, files).Some?
    ensures MessageToDict(m, users, files).value.user.id == caller
    ensures Lookup(users, UserId, caller).Some?
  {
  }

  /** The checks of DELETE /messages/<id>, in order: the message exists, then its author is
      the caller. */
  function DeleteMessageCheck(messages: seq<Message>, caller: nat, id: int): (r: Option<Rejection>)
    ensures r == Some(MessageNotFound) <==> Lookup(messages, MessageId, id).None?
    ensures r == Some(NotYourMessage) <==>
      Lookup(messages, MessageId, id).Some? && Lookup(messages, MessageId, id).value.userId != caller
    ensures r.None? <==>
      Lookup(messages, MessageId, id).Some? && Lookup(messages, MessageId, id).value.userId == caller
  {
    match Lookup(messages, MessageId, id)
    case None => Some(MessageNotFound)
    case Some(m) => if m.userId != caller then Some(NotYourMessage) else None
  }

  /** DELETE /messages/<id>. */
  method DeleteMessage(db: Db, caller: nat, id: int) returns (r: Reply<string>)
    requires db.Valid()
    modifies db`messages
    ensures db.Valid()
    ensures var check := DeleteMessageCheck(old(db.messages), caller, id);
      check.Some? ==> r == Err(check.value.status, check.value.message) && db.messages == old(db.messages)
    ensures DeleteMessageCheck(old(db.messages), caller, id).None? ==>
      && db.messages == Delete(old(db.messages), MessageId, id)
      && |db.messages| == |old(db.messages)| - 1
      && r == Ok(200, "Message deleted")
  {
    var check := DeleteMessageCheck(db.messages, caller, id);
    if check.Some? {
      return Err(check.value.status, check.value.message);
    }
    DeleteOne(db.messages, MessageId, id);
    ghost var before := db.messages;
    db.messages := Delete(db.messages, MessageId, id);
    assert KeysBelow(db.messages, MessageId, db.nextMessageId) by {
      forall i | 0 <= i < |db.messages| ensures db.messages[i].id < db.nextMessageId {
        assert db.messages[i] in before;
      }
    }
    r := Ok(200, "Message deleted");
  }

  // ---------------------------------------------------------------- private messages

  /** The messages of one chat, in table order. */
  function ChatMessages(pms: seq<PrivateMessage>, chatId: nat): (r: seq<PrivateMessage>)
    ensures forall p :: p in r <==> p in pms && p.chatId == chatId
  {
    Where(pms, (p: PrivateMessage) => p.chatId == chatId)
  }

  /** GET /messages/private/<other>: the pair's conversation, oldest first; `[]` when the two
      users have no chat yet. */
  function GetPrivateMessages(chats: seq<PrivateChat>, pms: seq<PrivateMessage>, caller: int, other: int)
    : (r: Reply<seq<PrivateMessage>>)
    ensures r.Ok? && r.status == 200
    ensures ChatBetween(chats, caller, other).None? ==> r.body == []
    ensures ChatBetween(chats, caller, other).Some? ==>
      var c := ChatBetween(chats, caller, other).value;
      && SortedBy(r.body, PrivateMessageTime)
      && multiset(r.body) == multiset(ChatMessages(pms, c.id))
      && (forall p :: p in r.body <==> p in pms && p.chatId == c.id)
  {
    match ChatBetween(chats, caller, other)
    case None => Ok(200, [])
    case Some(c) =>
      var ordered := OrderBy(ChatMessages(pms, c.id), PrivateMessageTime);
      assert forall p :: p in ordered <==> p in multiset(ordered);
      Ok(200, ordered)
  }

  /** Both participants see the same conversation. */
  lemma PrivateMessagesSymmetric(chats: seq<PrivateChat>, pms: seq<PrivateMessage>, a: int, b: int)
    ensures GetPrivateMessages(chats, pms, a, b) == GetPrivateMessages(chats, pms, b, a)
  {
    ChatBetweenSymmetric(chats, a, b);
  }

  /** POST /messages/private/<other>. Sending to oneself is refused before anything else. The
      pair's chat is created (and committed) when missing, before the "content" key is read, so
      a missing or null content still leaves the new chat behind. */
  method CreatePrivateMessage(db: Db, caller: nat, other: nat, content: Field<string>, now: int)
    returns (r: Reply<PrivateMessage>)
    requires db.Valid()
    modifies db`chats, db`nextChatId, db`privateMessages, db`nextPrivateMessageId
    ensures db.Valid()
    ensures caller == other ==>
      r == Err(SelfMessage.status, SelfMessage.message) &&
      db.chats == old(db.chats) && db.privateMessages == old(db.privateMessages)
    ensures caller != other ==>
      && db.chats == old(db.chats) +
           (if ChatBetween(old(db.chats), caller, other).None?
            then [PrivateChat(old(db.nextChatId), caller, other, now)] else [])
      && ChatBetween(db.chats, caller, other).Some?
      && (!content.Given? ==> r == Err(Crash.status, Crash.message) && db.privateMessages == old(db.privateMessages))
      && (content.Given? ==>
            var m := PrivateMessage(old(db.nextPrivateMessageId), content.value, now, caller,
                                    ChatBetween(db.chats, caller, other).value.id);
            db.privateMessages == old(db.privateMessages) + [m] && r == Ok(201, m))
  {
    if caller == other {
      return Err(SelfMessage.status, SelfMessage.message);
    }
    var found := ChatBetween(db.chats, caller, other);
    var chat: PrivateChat;
    if found.None? {
      ChatBetweenAppend(db.chats, PrivateChat(db.nextChatId, caller, other, now), caller, other);
      chat := db.AddChat(caller, other, now);
    } else {
      chat := found.value;
    }
    assert ChatBetween(db.chats, caller, other) == Some(chat);
    if !content.Given? {
      return Err(Crash.status, Crash.message);
    }
    var m := db.AddPrivateMessage(content.value, caller, chat.id, now);
    r := Ok(201, m);
  }

  /** A second message to the same user reuses the chat the first one created: creating a chat
      only when `ChatBetween` finds none keeps at most one chat per pair. */
  ghost predicate OneChatPerPair(chats: seq<PrivateChat>) {
    forall i, j :: 0 <= i < j < |chats| ==> !Between(chats[j], chats[i].user1Id, chats[i].user2Id)
  }

  lemma {:induction false} CreateChatKeepsOneChatPerPair(chats: seq<PrivateChat>, c: PrivateChat)
    requires OneChatPerPair(chats)
    requires ChatBetween(chats, c.user1Id, c.user2Id).None?
    ensures OneChatPerPair(chats + [c])
  {
    forall i | 0 <= i < |chats|
      ensures !Between(c, chats[i].user1Id, chats[i].user2Id)
    {
      assert chats[i] in chats;
      if Between(c, chats[i].user1Id, chats[i].user2Id) {
        assert Between(chats[i], c.user1Id, c.user2Id);
        assert false;
      }
    }
  }

  /** The checks of DELETE /messages/private/<other>/<id>, in order: the message exists, its
      sender is the caller, and it belongs to the chat between the caller and `other`. */
  function DeletePrivateMessageCheck(chats: seq<PrivateChat>, pms: seq<PrivateMessage>,
                                     caller: nat, other: int, id: int): (r: Option<Rejection>)
    ensures r == Some(MessageNotFound) <==> Lookup(pms, PrivateMessageId, id).None?
    ensures r == Some(NotYourMessage) <==>
      Lookup(pms, PrivateMessageId, id).Some? && Lookup(pms, PrivateMessageId, id).value.senderId != caller
    ensures r == Some(InvalidChatOrMessage) <==>
      && Lookup(pms, PrivateMessageId, id).Some? && Lookup(pms, PrivateMessageId, id).value.senderId == caller
      && (ChatBetween(chats, caller, other).None? ||
          Lookup(pms, PrivateMessageId, id).value.chatId != ChatBetween(chats, caller, other).value.id)
    ensures r.None? ==>
      && Lookup(pms, PrivateMessageId, id).Some? && Lookup(pms, PrivateMessageId, id).value.senderId == caller
      && ChatBetween(chats, caller, other).Some?
      && Lookup(pms, PrivateMessageId, id).value.chatId == ChatBetween(chats, caller, other).value.id
  {
    match Lookup(pms, PrivateMessageId, id)
    case None => Some(MessageNotFound)
    case Some(m) =>
      if m.senderId != caller then Some(NotYourMessage)
      else
        match ChatBetween(chats, caller, other)
        case None => Some(InvalidChatOrMessage)
        case Some(c) => if m.chatId != c.id then Some(InvalidChatOrMessage) else None
  }

  /** DELETE /messages/private/<other>/<id>. */
  method DeletePrivateMessage(db: Db, caller: nat, other: int, id: int) returns (r: Reply<string>)
    requires db.Valid()
    modifies db`privateMessages
    ensures db.Valid()
    ensures var check := DeletePrivateMessageCheck(old(db.chats), old(db.privateMessages), caller, other, id);
      check.Some? ==> r == Err(check.value.status, check.value.message) && db.privateMessages == old(db.privateMessages)
    ensures DeletePrivateMessageCheck(old(db.chats), old(db.privateMessages), caller, other, id).None? ==>
      && db.privateMessages == Delete(old(db.privateMessages), PrivateMessageId, id)
      && |db.privateMessages| == |old(db.privateMessages)| - 1
      && r == Ok(200, "Message deleted")
  {
    var check := DeletePrivateMessageCheck(db.chats, db.privateMessages, caller, other, id);
    if check.Some? {
      return Err(check.value.status, check.value.message);
    }
    DeleteOne(db.privateMessages, PrivateMessageId, id);
    ghost var before := db.privateMessages;
    db.privateMessages := Delete(db.privateMessages, PrivateMessageId, id);
    assert KeysBelow(db.privateMessages, PrivateMessageId, db.nextPrivateMessageId) by {
      forall i | 0 <= i < |db.privateMessages|
        ensures db.privateMessages[i].id < db.nextPrivateMessageId
      {
        assert db.privateMessages[i] in before;
      }
    }
    r := Ok(200, "Message deleted");
  }
}
