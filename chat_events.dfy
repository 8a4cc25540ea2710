/** `app/sockets/chat_events.py`: the socket.io event handlers. The server keeps one session per
    connection id (`connected_users`), each with the rooms it has joined; every handler is a
    guarded transition over that map and the database, and answers with at most one emitted
    event. socket.io's own room registry is kept in step by the handlers (every `join_room` /
    `leave_room` is paired with an update of the session's rooms), so the members of a room
    are read off the sessions. */
module ChatEvents {
  import opened Common
  import opened Tables
  import opened Records
  import opened Database
  import AuthApi

  const PublicRoom := "public_chat"

  /** The room of a private chat, `f"private_chat_{chat.id}"`. */
  function PrivateRoom(chatId: nat): (r: string)
    ensures StartsWith(r, "private_chat_") && r[13..] == NatToDecimal(chatId)
  {
    "private_chat_" + NatToDecimal(chatId)
  }

  /** Different chats have different rooms, and no chat's room is the public one. */
  lemma PrivateRoomsDistinct(a: nat, b: nat)
    ensures PrivateRoom(a) == PrivateRoom(b) ==> a == b
    ensures PrivateRoom(a) != PublicRoom
  {
    if PrivateRoom(a) == PrivateRoom(b) {
      assert NatToDecimal(a) == PrivateRoom(a)[13..];
      NatToDecimalInjective(a, b);
    }
  }

  /** One entry of `connected_users`: the user (None for an anonymous connection), the name
      shown to others, and the joined rooms. */
  datatype Session = Session(userId: Option<nat>, username: string, rooms: set<string>)

  /** An id sent by the client: missing or null, a number, or a string. */
  datatype IdValue = Missing | Num(n: int) | Text(s: string)

  /** An entry of the `online_users` list. */
  datatype OnlineUser = OnlineUser(id: Option<nat>, username: string)

  /** Who receives an emitted event: the calling connection, a whole room, or a room without
      the caller (`skip_sid`). */
  datatype Target = ToCaller | ToRoom(room: string) | ToRoomExceptCaller(room: string)

  datatype Payload =
    | Notice(message: string)
    | Presence(username: string, message: string)
    | NewPublicMessage(publicMessage: MessageDict, username: string)
    | JoinedPrivate(chatId: nat, otherId: nat, otherUsername: string)
    | NewPrivateMessage(privateMessage: PrivateMessage, username: string)
    | Online(users: seq<OnlineUser>)

  datatype Emit = Emit(event: string, payload: Payload, target: Target)

  /** How a handler ends: silently, by emitting one event, by refusing the connection, or by
      raising an exception that escapes the handler (nothing is emitted). */
  datatype Outcome = Silent | Sent(emit: Emit) | Refused | Raised

  /** The result of a handler's checks: stop with an outcome, or go on with a value. */
  datatype Guard<T> = Reject(out: Outcome) | Proceed(value: T)

  function Error(message: string): Emit {
    Emit("error", Notice(message), ToCaller)
  }

  const NotAuthenticated := "Not authenticated"
  const FailedToSend := "Failed to send message"

  // ---------------------------------------------------------------- reading client values

  datatype IdRead = NoId | BadId | Id(n: int)

  /** `if not v: ...` then `int(v)`: a missing, zero or empty id is falsy; a string must parse
      as an integer (`int` accepts surrounding whitespace and a sign). */
  function ReadId(v: IdValue): (r: IdRead)
    ensures r == NoId <==> v == Missing || v == Num(0) || v == Text("")
    ensures r == BadId <==> v.Text? && v.s != "" && ParseInt(v.s).None?
    ensures r.Id? && v.Num? ==> r.n == v.n
    ensures r.Id? && v.Text? ==> ParseInt(v.s) == Some(r.n)
  {
    match v
    case Missing => NoId
    case Num(n) => if n == 0 then NoId else Id(n)
    case Text(s) =>
      if s == "" then NoId
      else match ParseInt(s)
        case None => BadId
        case Some(n) => Id(n)
  }

  /** `data.get('content', '')`; an explicit null has no `.strip()` and raises. */
  function ContentText(content: Field<string>): (r: Option<string>)
    ensures r.None? <==> content.Null?
    ensures content.Absent? ==> r == Some("")
    ensures content.Given? ==> r == Some(Trim(content.value, Python))
  {
    match content
    case Absent => Some("")
    case Null => None
    case Given(s) => Some(Trim(s, Python))
  }

  // ---------------------------------------------------------------- connect

  /** The session `connect` stores, or None when the connection is refused. Without a token
      (or with an empty one) the connection is anonymous; with one, its `sub` claim must decode,
      parse as an integer and name an existing user. `decodeSub` is JWT decoding, None when it
      raises or the claim is missing. */
  function ConnectSession(users: seq<User>, token: Option<string>, decodeSub: string -> Option<string>)
    : (r: Option<Session>)
    ensures token.None? || token.value == "" ==> r == Some(Session(None, "Anonymous", {}))
    ensures token.Some? && token.value != "" ==>
      (r.Some? <==>
        && decodeSub(token.value).Some?
        && ParseInt(decodeSub(token.value).value).Some?
        && Lookup(users, UserId, ParseInt(decodeSub(token.value).value).value).Some?)
    ensures token.Some? && token.value != "" && r.Some? ==>
      exists u :: u in users && r.value == Session(Some(u.id), u.username, {}) &&
                  ParseInt(decodeSub(token.value).value) == Some(u.id as int)
  {
    if token.None? || token.value == "" then Some(Session(None, "Anonymous", {}))
    else match decodeSub(token.value)
      case None => None
      case Some(sub) =>
        match ParseInt(sub)
        case None => None
        case Some(id) =>
          match Lookup(users, UserId, id)
          case None => None
          case Some(u) => Some(Session(Some(u.id), u.username, {}))
  }

  /** A token issued by a successful login connects as that user: login and connect agree on
      the identity (`str(user.id)` one way, `int(sub)` the other). */
  lemma LoginThenConnect(users: seq<User>, req: AuthApi.LoginRequest, hash: string -> string,
                         token: string, decodeSub: string -> Option<string>)
    requires KeysAscending(users, UserId)
    requires AuthApi.Login(users, req, hash).Ok?
    requires token != "" && decodeSub(token) == Some(AuthApi.Login(users, req, hash).body.identity)
    ensures var v := AuthApi.Login(users, req, hash).body.user;
      ConnectSession(users, Some(token), decodeSub) == Some(Session(Some(v.id), v.username, {}))
  {
    var body := AuthApi.Login(users, req, hash).body;
    AuthApi.LoginIdentityParses(users, req, hash);
    var found := AuthApi.WithUsername(users, req.username.value);
    assert found[0] in found;
    LookupUnique(users, UserId, found[0]);
  }

  // ---------------------------------------------------------------- online users

  /** The `online_users` entries for the sessions `sids`, in that order: those in the public
      room. */
  function OnlineUsers(sids: seq<string>, connected: map<string, Session>): (r: seq<OnlineUser>)
    ensures |r| <= |sids|
    ensures forall u :: u in r <==> exists k :: 0 <= k < |sids| && ListedAs(connected, sids[k], u)
  {
    if sids == [] then []
    else
      var last := sids[|sids| - 1];
      var rest := OnlineUsers(sids[..|sids| - 1], connected);
      assert forall k :: 0 <= k < |sids| - 1 ==> sids[..|sids| - 1][k] == sids[k];
      if last in connected && PublicRoom in connected[last].rooms then
        rest + [OnlineUser(connected[last].userId, connected[last].username)]
      else rest
  }

  /** `u` is the entry listed for session `sid`. */
  predicate ListedAs(connected: map<string, Session>, sid: string, u: OnlineUser) {
    sid in connected && PublicRoom in connected[sid].rooms &&
    u == OnlineUser(connected[sid].userId, connected[sid].username)
  }

  // ---------------------------------------------------------------- the server

  class ChatServer {
    var connected: map<string, Session>
    /** The keys of `connected` in insertion order (the iteration order of a Python dict). */
    var order: seq<string>
    const db: Db

    ghost predicate Valid()
      reads this, db
    {
      && db.Valid()
      && (forall sid :: sid in order <==> sid in connected)
      && Distinct(order)
    }

    /** The connections in `room`. */
    function Members(room: string): set<string>
      reads this
    {
      set sid | sid in connected && room in connected[sid].rooms
    }

    constructor (db: Db)
      requires db.Valid()
      ensures Valid() && this.db == db
      ensures connected == map[] && order == []
    {
      this.db := db;
      connected := map[];
      order := [];
    }

    /** `connect`: stores the session of an accepted connection and welcomes it. A key that is
        already present keeps its place in the iteration order. */
    method Connect(sid: string, token: Option<string>, decodeSub: string -> Option<string>)
      returns (out: Outcome)
      requires Valid()
      modifies this`connected, this`order
      ensures Valid()
      ensures ConnectSession(db.users, token, decodeSub).None? ==>
        out == Refused && connected == old(connected) && order == old(order)
      ensures ConnectSession(db.users, token, decodeSub).Some? ==>
        var s := ConnectSession(db.users, token, decodeSub).value;
        && connected == old(connected)[sid := s]
        && order == (if sid in old(connected) then old(order) else old(order) + [sid])
        && out == Sent(Emit("connected", Notice("Welcome " + s.username + "!"), ToCaller))
    {
      var s := ConnectSession(db.users, token, decodeSub);
      if s.None? {
        return Refused;
      }
      if sid !in connected {
        AppendDistinct(order, sid);
        order := order + [sid];
      }
      connected := connected[sid := s.value];
      out := Sent(Emit("connected", Notice("Welcome " + s.value.username + "!"), ToCaller));
    }

    /** `disconnect`: leaves every room of the session, one at a time, then drops the session.
        Returns the rooms left. */
    method Disconnect(sid: string) returns (left: set<string>)
      requires Valid()
      modifies this`connected, this`order
      ensures Valid()
      ensures sid !in old(connected) ==> connected == old(connected) && order == old(order) && left == {}
      ensures sid in old(connected) ==>
        && left == old(connected)[sid].rooms
        && connected == old(connected) - {sid}
        && order == Where(old(order), (x: string) => x != sid)
      ensures forall room :: sid !in Members(room)
    {
      left := {};
      if sid !in connected {
        return;
      }
      ghost var before := connected;
      left := LeaveRooms(sid);
      ghost var mid := connected;
      assert Valid() by {
        assert forall x :: x in mid <==> x in before;
      }
      Forget(sid);
      assert connected == before - {sid} by {
        assert connected == mid - {sid};
        assert mid - {sid} == before - {sid};
      }
      assert sid !in connected;
    }

    /** The loop of `disconnect`: the session leaves its rooms one at a time. */
    method LeaveRooms(sid: string) returns (left: set<string>)
      requires sid in connected
      modifies this`connected
      ensures left == old(connected)[sid].rooms
      ensures connected == old(connected)[sid := old(connected)[sid].(rooms := {})]
    {
      left := {};
      var pending := connected[sid].rooms;
      while pending != {}
        invariant sid in connected
        invariant connected == old(connected)[sid := old(connected)[sid].(rooms := pending)]
        invariant left + pending == old(connected)[sid].rooms && left !! pending
        decreases |pending|
      {
        var room :| room in pending;
        pending := pending - {room};
        left := left + {room};
        connected := connected[sid := connected[sid].(rooms := pending)];
      }
    }

    /** Drops the session from the table and from the connection order. */
    method Forget(sid: string)
      requires Valid()
      modifies this`connected, this`order
      ensures Valid()
      ensures connected == old(connected) - {sid}
      ensures order == Where(old(order), (x: string) => x != sid)
    {
      connected := connected - {sid};
      DistinctWhere(order, (x: string) => x != sid);
      order := Where(order, (x: string) => x != sid);
      assert forall x :: x in order <==> x in connected;
    }

    /** `join_public`: adds the public room (a set, so joining twice changes nothing more) and
        tells the others in it. */
    method JoinPublic(sid: string) returns (out: Outcome)
      requires Valid()
      modifies this`connected
      ensures Valid()
      ensures sid !in old(connected) ==> out == Silent && connected == old(connected)
      ensures sid in old(connected) ==>
        var s := old(connected)[sid];
        && connected == old(connected)[sid := s.(rooms := s.rooms + {PublicRoom})]
        && out == Sent(Emit("user_joined", Presence(s.username, s.username + " joined the chat"),
                            ToRoomExceptCaller(PublicRoom)))
    {
      if sid !in connected {
        return Silent;
      }
      var s := connected[sid];
      connected := connected[sid := s.(rooms := s.rooms + {PublicRoom})];
      out := Sent(Emit("user_joined", Presence(s.username, s.username + " joined the chat"),
                       ToRoomExceptCaller(PublicRoom)));
    }

    /** `leave_public`: only a member leaves, and only then are the others told. */
    method LeavePublic(sid: string) returns (out: Outcome)
      requires Valid()
      modifies this`connected
      ensures Valid()
      ensures sid !in old(connected) || PublicRoom !in old(connected)[sid].rooms ==>
        out == Silent && connected == old(connected)
      ensures sid in old(connected) && PublicRoom in old(connected)[sid].rooms ==>
        var s := old(connected)[sid];
        && connected == old(connected)[sid := s.(rooms := s.rooms - {PublicRoom})]
        && out == Sent(Emit("user_left", Presence(s.username, s.username + " left the chat"),
                            ToRoomExceptCaller(PublicRoom)))
    {
      if sid !in connected || PublicRoom !in connected[sid].rooms {
        return Silent;
      }
      var s := connected[sid];
      connected := connected[sid := s.(rooms := s.rooms - {PublicRoom})];
      out := Sent(Emit("user_left", Presence(s.username, s.username + " left the chat"),
                       ToRoomExceptCaller(PublicRoom)));
    }

    /** `send_public_message`. The stored content is the stripped text. An anonymous session
        has no user id, so the insert fails and is rolled back; a sender whose user row is
        gone gets the message stored but `to_dict` raises: both end in "Failed to send
        message". */
    method SendPublicMessage(sid: string, content: Field<string>, now: int) returns (out: Outcome)
      requires Valid()
      modifies db`messages, db`nextMessageId
      ensures Valid()
      ensures var before := old(connected);
        var g := SendPublicGuard(if sid in before then Some(before[sid]) else None, content);
        && (g.Reject? ==> out == g.out && db.messages == old(db.messages))
        && (g.Proceed? && before[sid].userId.None? ==>
              out == Sent(Error(FailedToSend)) && db.messages == old(db.messages))
        && (g.Proceed? && before[sid].userId.Some? ==>
              var m := Message(old(db.nextMessageId), g.value, now, before[sid].userId.value);
              && db.messages == old(db.messages) + [m]
              && out == PublicDelivery(MessageToDict(m, old(db.users), old(db.files)), before[sid].username))
      ensures out.Sent? && out.emit.target.ToRoom? ==>
        out.emit.target.room == PublicRoom && sid in old(Members(PublicRoom))
    {
      var g := SendPublicGuard(if sid in connected then Some(connected[sid]) else None, content);
      if g.Reject? {
        return g.out;
      }
      var s := connected[sid];
      if s.userId.None? {
        return Sent(Error(FailedToSend));
      }
      assert sid in Members(PublicRoom);
      out := StorePublic(g.value, s.userId.value, s.username, now);
    }

    /** Stores a public message and serializes it for the public room. */
    method StorePublic(text: string, userId: nat, username: string, now: int) returns (out: Outcome)
      requires db.Valid()
      modifies db`messages, db`nextMessageId
      ensures db.Valid()
      ensures var m := Message(old(db.nextMessageId), text, now, userId);
        && db.messages == old(db.messages) + [m]
        && out == PublicDelivery(MessageToDict(m, db.users, db.files), username)
    {
      var m := db.AddMessage(text, userId, now);
      out := PublicDelivery(MessageToDict(m, db.users, db.files), username);
    }

    /** `join_private`: after the checks, reuses the pair's chat or creates exactly one, joins
        its room and tells the caller. */
    method JoinPrivate(sid: string, other: IdValue, now: int) returns (out: Outcome)
      requires Valid()
      modifies this`connected, db`chats, db`nextChatId
      ensures Valid()
      ensures var g := JoinPrivateGuard(if sid in old(connected) then Some(old(connected)[sid]) else None,
                                        old(db.users), other);
        && (g.Reject? ==> out == g.out && connected == old(connected) && db.chats == old(db.chats))
        && (g.Proceed? ==>
              var me, u := g.value.0, g.value.1;
              var existing := ChatBetween(old(db.chats), me, u.id);
              var chat := if existing.Some? then existing.value
                          else PrivateChat(old(db.nextChatId), me, u.id, now);
              && db.chats == old(db.chats) + (if existing.Some? then [] else [chat])
              && ChatBetween(db.chats, me, u.id) == Some(chat)
              && connected == old(connected)[sid := old(connected)[sid].(rooms := old(connected)[sid].rooms + {PrivateRoom(chat.id)})]
              && out == Sent(Emit("joined_private", JoinedPrivate(chat.id, u.id, u.username), ToCaller)))
    {
      var g := JoinPrivateGuard(if sid in connected then Some(connected[sid]) else None, db.users, other);
      if g.Reject? {
        return g.out;
      }
      out := EnterPrivate(sid, g.value.0, g.value.1, now);
    }

    /** The part of `join_private` after its checks. */
    method EnterPrivate(sid: string, me: nat, u: User, now: int) returns (out: Outcome)
      requires Valid() && sid in connected
      modifies this`connected, db`chats, db`nextChatId
      ensures Valid()
      ensures var existing := ChatBetween(old(db.chats), me, u.id);
        var chat := if existing.Some? then existing.value
                    else PrivateChat(old(db.nextChatId), me, u.id, now);
        && db.chats == old(db.chats) + (if existing.Some? then [] else [chat])
        && ChatBetween(db.chats, me, u.id) == Some(chat)
        && connected == old(connected)[sid := old(connected)[sid].(rooms := old(connected)[sid].rooms + {PrivateRoom(chat.id)})]
        && out == Sent(Emit("joined_private", JoinedPrivate(chat.id, u.id, u.username), ToCaller))
    {
      var chat := ChatFor(me, u.id, now);
      var s := connected[sid];
      connected := connected[sid := s.(rooms := s.rooms + {PrivateRoom(chat.id)})];
      out := Sent(Emit("joined_private", JoinedPrivate(chat.id, u.id, u.username), ToCaller));
    }

    /** The pair's chat: the existing one, or exactly one new row. */
    method ChatFor(me: nat, otherId: nat, now: int) returns (chat: PrivateChat)
      requires db.Valid()
      modifies db`chats, db`nextChatId
      ensures db.Valid()
      ensures var existing := ChatBetween(old(db.chats), me, otherId);
        && chat == (if existing.Some? then existing.value else PrivateChat(old(db.nextChatId), me, otherId, now))
        && db.chats == old(db.chats) + (if existing.Some? then [] else [chat])
        && ChatBetween(db.chats, me, otherId) == Some(chat)
    {
      var existing := ChatBetween(db.chats, me, otherId);
      if existing.Some? {
        chat := existing.value;
      } else {
        ChatBetweenAppend(db.chats, PrivateChat(db.nextChatId, me, otherId, now), me, otherId);
        chat := db.AddChat(me, otherId, now);
      }
    }

    /** `leave_private`: silent whatever happens; leaves the pair's room when the caller is in
        it. */
    method LeavePrivate(sid: string, other: IdValue) returns (out: Outcome)
      requires Valid()
      modifies this`connected
      ensures Valid()
      ensures out == Silent
      ensures sid !in old(connected) ==> connected == old(connected)
      ensures sid in old(connected) ==>
        var s := old(connected)[sid];
        var room := PrivateRoomToLeave(s, db.chats, other);
        connected == old(connected)[sid := s.(rooms := if room.Some? then s.rooms - {room.value} else s.rooms)]
    {
      out := Silent;
      if sid !in connected {
        return;
      }
      var s := connected[sid];
      var room := PrivateRoomToLeave(s, db.chats, other);
      if room.Some? {
        connected := connected[sid := s.(rooms := s.rooms - {room.value})];
      } else {
        connected := connected[sid := s];
      }
    }

    /** `send_private_message`: never creates a chat (its frame does not include the chats
        table); stores the message and broadcasts it to the chat's room, which the sender is
        in. */
    method SendPrivateMessage(sid: string, other: IdValue, content: Field<string>, now: int)
      returns (out: Outcome)
      requires Valid()
      modifies db`privateMessages, db`nextPrivateMessageId
      ensures Valid()
      ensures var g := SendPrivateGuard(if sid in connected then Some(connected[sid]) else None,
                                        db.chats, other, content);
        && (g.Reject? ==> out == g.out && db.privateMessages == old(db.privateMessages))
        && (g.Proceed? ==>
              var (me, chat, text) := g.value;
              var m := PrivateMessage(old(db.nextPrivateMessageId), text, now, me, chat.id);
              && db.privateMessages == old(db.privateMessages) + [m]
              && out == Sent(Emit("new_private_message", NewPrivateMessage(m, connected[sid].username),
                                  ToRoom(PrivateRoom(chat.id)))))
      ensures out.Sent? && out.emit.target.ToRoom? ==> sid in Members(out.emit.target.room)
    {
      var g := SendPrivateGuard(if sid in connected then Some(connected[sid]) else None, db.chats, other, content);
      if g.Reject? {
        return g.out;
      }
      var (me, chat, text) := g.value;
      ghost var chats := db.chats;
      assert sid in Members(PrivateRoom(chat.id));
      var m := db.AddPrivateMessage(text, me, chat.id, now);
      assert db.chats == chats;
      out := Sent(Emit("new_private_message", NewPrivateMessage(m, connected[sid].username),
                       ToRoom(PrivateRoom(chat.id))));
    }

    /** `get_online_users`: walks the sessions in order and lists those in the public room;
        changes nothing. */
    method GetOnlineUsers(sid: string) returns (out: Outcome)
      requires Valid()
      ensures sid !in connected ==> out == Silent
      ensures sid in connected ==> out == Sent(Emit("online_users", Online(OnlineUsers(order, connected)), ToCaller))
    {
      if sid !in connected {
        return Silent;
      }
      var users: seq<OnlineUser> := [];
      var i := 0;
      while i < |order|
        invariant 0 <= i <= |order|
        invariant users == OnlineUsers(order[..i], connected)
      {
        var other := order[i];
        assert order[..i + 1][..i] == order[..i];
        if other in connected && PublicRoom in connected[other].rooms {
          users := users + [OnlineUser(connected[other].userId, connected[other].username)];
        }
        i := i + 1;
      }
      assert order[..|order|] == order;
      out := Sent(Emit("online_users", Online(users), ToCaller));
    }
  }

  /** No connection id occurs twice (the keys of a dict). */
  predicate Distinct(xs: seq<string>) {
    forall i, j :: 0 <= i < j < |xs| ==> xs[i] != xs[j]
  }

  lemma AppendDistinct(order: seq<string>, sid: string)
    requires Distinct(order) && sid !in order
    ensures Distinct(order + [sid])
  {
    var r := order + [sid];
    forall i, j | 0 <= i < j < |r| ensures r[i] != r[j] {
      if j == |order| {
        assert r[i] == order[i] && order[i] in order;
      }
    }
  }

  /** Removing entries keeps the rest distinct. */
  lemma {:induction false} DistinctWhere(xs: seq<string>, p: string -> bool)
    requires Distinct(xs)
    ensures Distinct(Where(xs, p))
  {
    if xs != [] {
      assert Distinct(xs[1..]) by {
        forall i, j | 0 <= i < j < |xs[1..]| ensures xs[1..][i] != xs[1..][j] {
          assert xs[1..][i] == xs[i + 1] && xs[1..][j] == xs[j + 1];
        }
      }
      DistinctWhere(xs[1..], p);
      var rest := Where(xs[1..], p);
      assert xs[0] !in xs[1..] by {
        forall k | 0 <= k < |xs[1..]| ensures xs[1..][k] != xs[0] {
          assert xs[1..][k] == xs[k + 1];
        }
      }
      if p(xs[0]) {
        DistinctCons(xs[0], rest);
      }
    }
  }

  /** A new first entry that is not among the rest keeps the entries distinct. */
  lemma DistinctCons(x: string, rest: seq<string>)
    requires Distinct(rest) && x !in rest
    ensures Distinct([x] + rest)
  {
    var r := [x] + rest;
    forall i, j | 0 <= i < j < |r| ensures r[i] != r[j] {
      assert r[j] == rest[j - 1];
      if i > 0 {
        assert r[i] == rest[i - 1];
      }
    }
  }

  // ---------------------------------------------------------------- the handlers' checks

  /** The checks of `send_public_message`, in order: connected, in the public room, content not
      null, content not blank after `strip`. Proceeds with the stripped text. */
  function SendPublicGuard(s: Option<Session>, content: Field<string>): (r: Guard<string>)
    ensures s.None? ==> r == Reject(Sent(Error(NotAuthenticated)))
    ensures s.Some? && PublicRoom !in s.value.rooms ==> r == Reject(Sent(Error("Not in public chat")))
    ensures s.Some? && PublicRoom in s.value.rooms && content.Null? ==> r == Reject(Raised)
    ensures s.Some? && PublicRoom in s.value.rooms && ContentText(content) == Some("") ==>
      r == Reject(Sent(Error("Message content cannot be empty")))
    ensures r.Proceed? <==> s.Some? && PublicRoom in s.value.rooms && content.Given? && !IsBlank(content.value, Python)
    ensures r.Proceed? ==> r.value == Trim(content.value, Python) && r.value != ""
    ensures r.Reject? ==> r.out == Raised || (r.out.Sent? && r.out.emit.target == ToCaller)
  {
    if s.None? then Reject(Sent(Error(NotAuthenticated)))
    else if PublicRoom !in s.value.rooms then Reject(Sent(Error("Not in public chat")))
    else match ContentText(content)
      case None => Reject(Raised)
      case Some(text) => if text == "" then Reject(Sent(Error("Message content cannot be empty"))) else Proceed(text)
  }

  /** What `send_public_message` emits once the message is stored: the serialized message to
      the public room, or the failure notice when serializing raised. */
  function PublicDelivery(d: Option<MessageDict>, username: string): (out: Outcome)
    ensures d.None? ==> out == Sent(Error(FailedToSend))
    ensures d.Some? ==> out == Sent(Emit("new_public_message", NewPublicMessage(d.value, username), ToRoom(PublicRoom)))
  {
    match d
    case None => Sent(Error(FailedToSend))
    case Some(dict) => Sent(Emit("new_public_message", NewPublicMessage(dict, username), ToRoom(PublicRoom)))
  }

  /** The checks of `join_private`, in order: connected, an id given, the id an integer, the
      user found. An anonymous session cannot own a chat: creating one fails at commit.
      Proceeds with the caller's id and the other user. */
  function JoinPrivateGuard(s: Option<Session>, users: seq<User>, other: IdValue): (r: Guard<(nat, User)>)
    ensures s.None? ==> r == Reject(Sent(Error(NotAuthenticated)))
    ensures s.Some? && ReadId(other) == NoId ==> r == Reject(Sent(Error("Other user ID required")))
    ensures s.Some? && ReadId(other) == BadId ==> r == Reject(Sent(Error("Invalid user ID")))
    ensures s.Some? && ReadId(other).Id? && Lookup(users, UserId, ReadId(other).n).None? ==>
      r == Reject(Sent(Error("User not found")))
    ensures r.Proceed? <==>
      s.Some? && s.value.userId.Some? && ReadId(other).Id? && Lookup(users, UserId, ReadId(other).n).Some?
    ensures r.Proceed? ==> r.value.0 == s.value.userId.value && r.value.1 in users && r.value.1.id == ReadId(other).n
  {
    if s.None? then Reject(Sent(Error(NotAuthenticated)))
    else match ReadId(other)
      case NoId => Reject(Sent(Error("Other user ID required")))
      case BadId => Reject(Sent(Error("Invalid user ID")))
      case Id(n) =>
        match Lookup(users, UserId, n)
        case None => Reject(Sent(Error("User not found")))
        case Some(u) => if s.value.userId.None? then Reject(Raised) else Proceed((s.value.userId.value, u))
  }

  /** An id padded with a unit separator is refused as `int()` refuses it: `join_private` with
      `"\x1f5"` answers "Invalid user ID" to a connected caller, whoever the users are. */
  lemma SeparatorPaddedIdRefused(s: Option<Session>, users: seq<User>)
    requires s.Some?
    ensures ReadId(Text([0x1F as char, '5'])) == BadId
    ensures JoinPrivateGuard(s, users, Text([0x1F as char, '5'])) == Reject(Sent(Error("Invalid user ID")))
  {
    ParseRefusesSeparator();
  }

  /** The room `leave_private` leaves, if any: the pair's chat room, when the id reads as an
      integer, the chat exists and the session is in its room. */
  function PrivateRoomToLeave(s: Session, chats: seq<PrivateChat>, other: IdValue): (r: Option<string>)
    ensures r.Some? <==>
      && ReadId(other).Id? && s.userId.Some?
      && ChatBetween(chats, s.userId.value, ReadId(other).n).Some?
      && PrivateRoom(ChatBetween(chats, s.userId.value, ReadId(other).n).value.id) in s.rooms
    ensures r.Some? ==> r.value in s.rooms && r.value != PublicRoom
  {
    match ReadId(other)
    case NoId => None
    case BadId => None
    case Id(n) =>
      if s.userId.None? then None
      else match ChatBetween(chats, s.userId.value, n)
        case None => None
        case Some(c) =>
          PrivateRoomsDistinct(c.id, c.id);
          if PrivateRoom(c.id) in s.rooms then Some(PrivateRoom(c.id)) else None
  }

  /** The checks of `send_private_message`, in order: connected, content not null, an id and
      non-blank content, the id an integer, the pair's chat exists, the caller is in its room.
      Proceeds with the caller's id, the chat and the stripped text. */
  function SendPrivateGuard(s: Option<Session>, chats: seq<PrivateChat>, other: IdValue, content: Field<string>)
    : (r: Guard<(nat, PrivateChat, string)>)
    ensures s.None? ==> r == Reject(Sent(Error(NotAuthenticated)))
    ensures s.Some? && content.Null? ==> r == Reject(Raised)
    ensures s.Some? && !content.Null? && (ReadId(other) == NoId || ContentText(content) == Some("")) ==>
      r == Reject(Sent(Error("Other user ID and content required")))
    ensures s.Some? && ContentText(content).Some? && ContentText(content) != Some("") && ReadId(other) == BadId ==>
      r == Reject(Sent(Error("Invalid user ID")))
    ensures s.Some? && ContentText(content).Some? && ContentText(content) != Some("") && ReadId(other).Id? &&
            (s.value.userId.None? || ChatBetween(chats, s.value.userId.value, ReadId(other).n).None?) ==>
      r == Reject(Sent(Error("Chat not found")))
    ensures r.Proceed? <==>
      && s.Some? && content.Given? && !IsBlank(content.value, Python) && ReadId(other).Id? && s.value.userId.Some?
      && ChatBetween(chats, s.value.userId.value, ReadId(other).n).Some?
      && PrivateRoom(ChatBetween(chats, s.value.userId.value, ReadId(other).n).value.id) in s.value.rooms
    ensures r.Proceed? ==>
      && r.value.0 == s.value.userId.value
      && r.value.1 == ChatBetween(chats, s.value.userId.value, ReadId(other).n).value
      && r.value.1 in chats && Between(r.value.1, r.value.0, ReadId(other).n)
      && r.value.2 == Trim(content.value, Python) && r.value.2 != ""
  {
    if s.None? then Reject(Sent(Error(NotAuthenticated)))
    else match ContentText(content)
      case None => Reject(Raised)
      case Some(text) =>
        var id := ReadId(other);
        if id == NoId || text == "" then Reject(Sent(Error("Other user ID and content required")))
        else if id == BadId then Reject(Sent(Error("Invalid user ID")))
        else if s.value.userId.None? then Reject(Sent(Error("Chat not found")))
        else match ChatBetween(chats, s.value.userId.value, id.n)
          case None => Reject(Sent(Error("Chat not found")))
          case Some(c) =>
            if PrivateRoom(c.id) !in s.value.rooms then Reject(Sent(Error("Not in this private chat")))
            else Proceed((s.value.userId.value, c, text))
  }

  /** Messages reach only the chat's room: a private message is never sent to the public room. */
  lemma PrivateMessagesStayPrivate(s: Option<Session>, chats: seq<PrivateChat>, other: IdValue, content: Field<string>)
    requires SendPrivateGuard(s, chats, other, content).Proceed?
    ensures PrivateRoom(SendPrivateGuard(s, chats, other, content).value.1.id) != PublicRoom
  {
    PrivateRoomsDistinct(SendPrivateGuard(s, chats, other, content).value.1.id, 0);
  }
}
