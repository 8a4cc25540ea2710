/** `app/chat/page.tsx`: the chat screen. It checks for a stored session, loads the caller's
    private chats, resets a chat's unread count when it is opened, and sizes the sidebar.

    The `/chats` endpoints it calls are not part of this model: their replies and the outcome
    of the mark-read request are parameters, as is `JSON.parse` of the stored user. */
module ChatPage {
  import opened Common
  import opened UiTypes

  /** A user object as the server sends it (ids are numbers, the picture is `avatar_url`). */
  datatype ServerUser = ServerUser(id: nat, username: string, email: string, avatarUrl: Option<string>)

  datatype ServerLastMessage = ServerLastMessage(id: nat, content: string, sender: ServerUser, timestamp: int)

  /** One element of `response.data.chats`. */
  datatype ServerChat = ServerChat(chatId: nat, otherUser: ServerUser, unreadCount: int,
                                   lastMessage: Option<ServerLastMessage>)

  /** A server user taken over as is: it has no `avatar` property. */
  function AsIs(u: ServerUser): UiUser {
    UiUser(NatToDecimal(u.id), u.username, u.email, None)
  }

  /** `{ ...u, avatar: u.avatar_url }`. */
  function WithAvatar(u: ServerUser): (v: UiUser)
    ensures v.avatar == u.avatarUrl && v.username == u.username && v.email == u.email
    ensures ParseInt(v.id) == Some(u.id as int)
  {
    ParseDecimalRoundTrip(u.id);
    UiUser(NatToDecimal(u.id), u.username, u.email, u.avatarUrl)
  }

  /** The `lastMessage` of a fetched chat: a text message whose sender is the raw user. */
  function LastMessage(m: ServerLastMessage): UiMessage {
    UiMessage(NatToDecimal(m.id), m.content, NatToDecimal(m.sender.id), AsIs(m.sender), m.timestamp, Text, None)
  }

  /** The mapping of one fetched chat: a private chat named after the other user, with the
      viewer and the other user as participants, the server's unread count, and a last
      message exactly when the server sent one. */
  function ToChat(c: ServerChat, me: UiUser): (r: Chat)
    ensures ParseInt(r.id) == Some(c.chatId as int)
    ensures r.name == c.otherUser.username && r.kind == Private
    ensures r.participants == [me, WithAvatar(c.otherUser)]
    ensures r.unreadCount == c.unreadCount
    ensures r.lastMessage.None? <==> c.lastMessage.None?
    ensures c.lastMessage.Some? ==> r.lastMessage.value.content == c.lastMessage.value.content
  {
    ParseDecimalRoundTrip(c.chatId);
    Chat(NatToDecimal(c.chatId), c.otherUser.username, Private, [me, WithAvatar(c.otherUser)],
         if c.lastMessage.Some? then Some(LastMessage(c.lastMessage.value)) else None, c.unreadCount)
  }

  /** The fetched list mapped chat by chat, in the server's order. */
  function ToChats(cs: seq<ServerChat>, me: UiUser): (r: seq<Chat>)
    ensures |r| == |cs| && forall i :: 0 <= i < |cs| ==> r[i] == ToChat(cs[i], me)
  {
    Map(cs, (c: ServerChat) => ToChat(c, me))
  }

  /** Fetched chats keep the server's order and distinct chat ids stay distinct. */
  lemma FetchedChatsKeyed(cs: seq<ServerChat>, me: UiUser)
    ensures var r := ToChats(cs, me);
      forall i, j :: 0 <= i < |cs| && 0 <= j < |cs| && cs[i].chatId != cs[j].chatId ==> r[i].id != r[j].id
  {
    var r := ToChats(cs, me);
    forall i, j | 0 <= i < |cs| && 0 <= j < |cs| && cs[i].chatId != cs[j].chatId
      ensures r[i].id != r[j].id
    {
      assert ParseInt(r[i].id) == Some(cs[i].chatId as int);
      assert ParseInt(r[j].id) == Some(cs[j].chatId as int);
    }
  }

  /** `prev.map(c => c.id === id ? { ...c, unreadCount: 0 } : c)`. */
  function MarkRead(chats: seq<Chat>, id: string): (r: seq<Chat>)
    ensures |r| == |chats|
    ensures forall i :: 0 <= i < |chats| && chats[i].id != id ==> r[i] == chats[i]
    ensures forall i :: 0 <= i < |chats| && chats[i].id == id ==> r[i] == chats[i].(unreadCount := 0)
  {
    Map(chats, (c: Chat) => if c.id == id then c.(unreadCount := 0) else c)
  }

  /** After a mark-read no chat with that id has unread messages, and marking twice is the same
      as marking once. */
  lemma MarkReadClears(chats: seq<Chat>, id: string)
    ensures forall c :: c in MarkRead(chats, id) && c.id == id ==> c.unreadCount == 0
    ensures MarkRead(MarkRead(chats, id), id) == MarkRead(chats, id)
  {
  }

  const MinSidebarWidth := 250
  const MaxSidebarWidth := 500
  const DefaultSidebarWidth := 410
  const Breakpoint := 768

  /** `Math.max(250, Math.min(500, startWidth + clientX - startX))`: the dragged width,
      clamped. */
  function DraggedWidth(startWidth: int, startX: int, clientX: int): (w: int)
    ensures MinSidebarWidth <= w <= MaxSidebarWidth
    ensures MinSidebarWidth <= startWidth + clientX - startX <= MaxSidebarWidth ==> w == startWidth + clientX - startX
    ensures startWidth + clientX - startX < MinSidebarWidth ==> w == MinSidebarWidth
    ensures startWidth + clientX - startX > MaxSidebarWidth ==> w == MaxSidebarWidth
  {
    var wanted := startWidth + clientX - startX;
    var capped := if wanted < MaxSidebarWidth then wanted else MaxSidebarWidth;
    if capped > MinSidebarWidth then capped else MinSidebarWidth
  }

  /** The page's state. `redirect` is the `router.push` target, if any. */
  class ChatPageState {
    var user: Option<UiUser>
    var selectedChat: Option<Chat>
    var chats: seq<Chat>
    var loadingChats: bool
    var sidebarOpen: bool
    var sidebarWidth: int
    var redirect: Option<string>

    constructor ()
      ensures user.None? && selectedChat.None? && chats == [] && !loadingChats
      ensures !sidebarOpen && sidebarWidth == DefaultSidebarWidth && redirect.None?
    {
      user := None;
      selectedChat := None;
      chats := [];
      loadingChats := false;
      sidebarOpen := false;
      sidebarWidth := DefaultSidebarWidth;
      redirect := None;
    }

    /** The mount effect: without a stored token or user the page goes to `/login` and loads
        nothing; otherwise the stored user (with `avatar` taken from `avatar_url`) becomes the
        viewer and the chats are loaded for the stored user as parsed. `fetched` is the
        `/chats` reply, `None` when the request fails (the list then stays as it was). */
    method Mount(token: Option<string>, userData: Option<string>, parse: string -> ServerUser,
                 fetched: Option<seq<ServerChat>>) returns (requested: bool)
      modifies this`user, this`redirect, this`chats, this`loadingChats
      ensures requested <==> Truthy(token) && Truthy(userData)
      ensures !requested ==>
        redirect == Some("/login") && user == old(user) && chats == old(chats) && loadingChats == old(loadingChats)
      ensures requested ==>
        && redirect == old(redirect)
        && user == Some(WithAvatar(parse(userData.value)))
        && !loadingChats
        && (fetched.None? ==> chats == old(chats))
        && (fetched.Some? ==> chats == ToChats(fetched.value, AsIs(parse(userData.value))))
    {
      if !(token.Some? && token.value != "") || !(userData.Some? && userData.value != "") {
        redirect := Some("/login");
        return false;
      }
      var parsed := parse(userData.value);
      user := Some(WithAvatar(parsed));
      loadingChats := true;
      if fetched.Some? {
        chats := ToChats(fetched.value, AsIs(parsed));
      }
      loadingChats := false;
      requested := true;
    }

    /** `handleSelectChat`: the chat is always selected; the mark-read request goes out only
        when it has unread messages, and only a request that succeeded (`postOk`) zeroes the
        count of the chats with its id. */
    method HandleSelectChat(chat: Chat, postOk: bool) returns (posted: bool)
      modifies this`selectedChat, this`chats
      ensures selectedChat == Some(chat)
      ensures posted <==> chat.unreadCount > 0
      ensures posted && postOk ==> chats == MarkRead(old(chats), chat.id)
      ensures !(posted && postOk) ==> chats == old(chats)
    {
      selectedChat := Some(chat);
      posted := chat.unreadCount > 0;
      if posted && postOk {
        chats := MarkRead(chats, chat.id);
      }
    }

    /** `handleResize`: the sidebar is open on wide windows and closed on narrow ones. */
    method HandleResize(innerWidth: int)
      modifies this`sidebarOpen
      ensures sidebarOpen <==> innerWidth >= Breakpoint
    {
      sidebarOpen := innerWidth >= Breakpoint;
    }

    /** `handleMouseMove` during a drag that started at `startX` with width `startWidth`. */
    method HandleMouseMove(startWidth: int, startX: int, clientX: int)
      modifies this`sidebarWidth
      ensures sidebarWidth == DraggedWidth(startWidth, startX, clientX)
      ensures MinSidebarWidth <= sidebarWidth <= MaxSidebarWidth
    {
      sidebarWidth := DraggedWidth(startWidth, startX, clientX);
    }
  }
}
