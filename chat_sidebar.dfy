/** `components/ChatSidebar.tsx`: the list of chats beside the open one, the search box that
    filters it, the "new conversation" user picker, the profile badge and the logout button.

    The `/users/` and `/auth/logout` replies are parameters; toasts, animation and styling are
    left out. */
module ChatSidebar {
  import opened Common
  import opened Tables
  import opened UiTypes
  import opened Avatar
  import Records
  import UsersApi
  import ApiClient
  import SocketClient
  import ChatWindow
  import ChatPage

  /** `chat.name.toLowerCase().includes(searchQuery.toLowerCase())`. */
  predicate MatchesQuery(chat: Chat, query: string) {
    Contains(ToLower(chat.name), ToLower(query))
  }

  /** `filteredChats`: the chats whose name contains the query, ignoring case, in list order. */
  function FilteredChats(chats: seq<Chat>, query: string): (r: seq<Chat>)
    ensures forall c :: c in r <==> c in chats && MatchesQuery(c, query)
    ensures forall c :: multiset(r)[c] == if MatchesQuery(c, query) then multiset(chats)[c] else 0
  {
    var r := Where(chats, (c: Chat) => MatchesQuery(c, query));
    assert forall c :: multiset(r)[c] == if MatchesQuery(c, query) then multiset(chats)[c] else 0 by {
      forall c ensures multiset(r)[c] == if MatchesQuery(c, query) then multiset(chats)[c] else 0 {
        WhereCounts(chats, (c: Chat) => MatchesQuery(c, query), c);
      }
    }
    r
  }

  /** An empty search box lists every chat. */
  lemma EmptyQueryKeepsAll(chats: seq<Chat>)
    ensures FilteredChats(chats, "") == chats
  {
    forall k | 0 <= k < |chats| ensures MatchesQuery(chats[k], "") {
      ContainsEmpty(ToLower(chats[k].name));
    }
    WhereAll(chats, (c: Chat) => MatchesQuery(c, ""));
  }

  /** Typing more into the search box can only remove chats from the list. */
  lemma NarrowingQueryNarrows(chats: seq<Chat>, query: string, more: string)
    ensures forall c :: c in FilteredChats(chats, query + more) ==> c in FilteredChats(chats, query)
  {
    assert ToLower(query + more) == ToLower(query) + ToLower(more);
    forall c | MatchesQuery(c, query + more) ensures MatchesQuery(c, query) {
      var s := ToLower(c.name);
      var i :| 0 <= i <= |s| - |ToLower(query + more)| && OccursAt(s, ToLower(query + more), i);
      assert s[i..i + |ToLower(query)|] == s[i..i + |ToLower(query + more)|][..|ToLower(query)|];
      assert OccursAt(s, ToLower(query), i);
    }
  }

  const PublicChatId := "public"
  const PublicChatName := "Public Chat"

  /** `publicChat`: the viewer alone as participant and the unread count handed down. */
  function PublicChat(me: UiUser, publicUnread: int): (c: Chat)
    ensures c.id == PublicChatId && c.name == PublicChatName && c.kind == Public
    ensures c.participants == [me] && c.lastMessage.None? && c.unreadCount == publicUnread
  {
    Chat(PublicChatId, PublicChatName, Public, [me], None, publicUnread)
  }

  /** `allChats`: the public chat first, whatever the query, then the filtered chats. The list
      is therefore never empty, so the "No chats yet" branch of the list is never shown. */
  function AllChats(me: UiUser, chats: seq<Chat>, query: string, publicUnread: int): (r: seq<Chat>)
    ensures |r| >= 1 && |r| == 1 + |FilteredChats(chats, query)|
    ensures r[0].id == PublicChatId && r[0].kind == Public && r[0].unreadCount == publicUnread
    ensures r[1..] == FilteredChats(chats, query)
  {
    [PublicChat(me, publicUnread)] + FilteredChats(chats, query)
  }

  /** A user of the `/users/` reply as the picker holds it: `{ ...u, avatar: u.avatar }` copies
      an `avatar` property the reply does not have, so no picture is kept. */
  function AsListed(v: Records.UserView): (u: UiUser)
    ensures ParseInt(u.id) == Some(v.id as int)
    ensures u.username == v.username && u.email == v.email && u.avatar.None?
  {
    ParseDecimalRoundTrip(v.id);
    UiUser(NatToDecimal(v.id), v.username, v.email, None)
  }

  /** `fetchUsers`: every listed user except the viewer, in the reply's order. */
  function OtherUsers(views: seq<Records.UserView>, me: UiUser): (r: seq<UiUser>)
    ensures forall u :: u in r ==> u.id != me.id
    ensures forall v :: v in views ==> (AsListed(v) in r <==> AsListed(v).id != me.id)
  {
    Where(Map(views, AsListed), (u: UiUser) => u.id != me.id)
  }

  /** Against the server's user list: the picker offers each registered user exactly when it
      is not the viewer. */
  lemma PickerOffersEveryoneElse(users: seq<Records.User>, meId: nat, me: UiUser)
    requires me.id == NatToDecimal(meId)
    ensures var listed := OtherUsers(UsersApi.GetUsers(users).body, me);
      forall u :: u in users ==> (AsListed(Records.View(u)) in listed <==> Records.View(u).id != meId)
  {
    var views := UsersApi.GetUsers(users).body;
    forall u | u in users
      ensures AsListed(Records.View(u)) in OtherUsers(views, me) <==> Records.View(u).id != meId
    {
      assert Records.View(u) in views;
      if Records.View(u).id == meId {
        assert AsListed(Records.View(u)).id == me.id;
      } else if AsListed(Records.View(u)).id == me.id {
        NatToDecimalInjective(Records.View(u).id, meId);
      }
    }
  }

  const ProvisionalPrefix := "temp-"

  /** The chat the picker opens before any message exists: `temp-` and the user's id, named
      after that user, with the viewer and that user as participants and nothing unread. */
  function ProvisionalChat(me: UiUser, picked: UiUser): (c: Chat)
    ensures c.id == ProvisionalPrefix + picked.id && c.name == picked.username && c.kind == Private
    ensures c.participants == [me, picked] && c.lastMessage.None? && c.unreadCount == 0
  {
    Chat(ProvisionalPrefix + picked.id, picked.username, Private, [me, picked], None, 0)
  }

  /** A provisional chat never shares its id with the public chat or with a chat fetched from
      the server, so selecting it highlights no other row. */
  lemma ProvisionalIdIsFresh(me: UiUser, picked: UiUser, fetched: ChatPage.ServerChat, viewer: UiUser)
    ensures ProvisionalChat(me, picked).id != PublicChatId
    ensures ProvisionalChat(me, picked).id != ChatPage.ToChat(fetched, viewer).id
  {
    var id := ProvisionalChat(me, picked).id;
    assert id[1] == 'e' != PublicChatId[1];
    var fid := ChatPage.ToChat(fetched, viewer).id;
    assert fid == NatToDecimal(fetched.chatId);
    assert IsDigit(fid[0]);
    assert id[0] == 't';
  }

  /** The chat window of a provisional chat talks to the picked user. */
  lemma ProvisionalChatTalksToPicked(me: UiUser, picked: UiUser)
    requires picked.id != me.id
    ensures ChatWindow.FirstOther(ProvisionalChat(me, picked).participants, me.id) == Some(picked)
  {
    assert ProvisionalChat(me, picked).participants[1..] == [picked];
  }

  /** `(other?.username || chat.name)`: the name the letters of a row without a picture come
      from. */
  function PlaceholderName(chat: Chat, me: string): (name: string)
    ensures var other := ChatWindow.FirstOther(chat.participants, me);
      && (other.Some? && other.value.username != "" ==> name == other.value.username)
      && (!(other.Some? && other.value.username != "") ==> name == chat.name)
  {
    var other := ChatWindow.FirstOther(chat.participants, me);
    if other.Some? && other.value.username != "" then other.value.username else chat.name
  }

  /** What the leading circle of a row (or the profile badge) shows. */
  datatype RowIcon = GroupIcon | Picture(url: string) | Letters(initials: string)

  /** The decisions of one row of the list. */
  datatype Row = Row(highlighted: bool, icon: RowIcon, title: string, preview: Option<string>, badge: Option<int>)

  /** A row is highlighted iff its id is the selected chat's; the public chat shows the group
      icon; a private chat shows the other participant's picture when it is truthy and the
      letters of the placeholder name otherwise; the last message's text is previewed when
      there is one; the unread badge appears iff the count is positive. */
  function RenderRow(chat: Chat, me: UiUser, selected: Option<Chat>): (row: Row)
    ensures row.highlighted <==> selected.Some? && selected.value.id == chat.id
    ensures row.icon.GroupIcon? <==> chat.kind == Public
    ensures var other := ChatWindow.FirstOther(chat.participants, me.id);
      row.icon.Picture? <==> chat.kind == Private && other.Some? && Truthy(other.value.avatar)
    ensures row.icon.Picture? ==>
      row.icon.url == ChatWindow.FirstOther(chat.participants, me.id).value.avatar.value
    ensures row.icon.Letters? ==> row.icon.initials == Initials(PlaceholderName(chat, me.id))
    ensures row.title == chat.name
    ensures row.preview.Some? <==> chat.lastMessage.Some?
    ensures row.preview.Some? ==> row.preview.value == chat.lastMessage.value.content
    ensures row.badge.Some? <==> chat.unreadCount > 0
    ensures row.badge.Some? ==> row.badge.value == chat.unreadCount
  {
    var other := ChatWindow.FirstOther(chat.participants, me.id);
    var icon :=
      if chat.kind == Public then GroupIcon
      else if other.Some? && Truthy(other.value.avatar) then Picture(other.value.avatar.value)
      else Letters(Initials(PlaceholderName(chat, me.id)));
    Row(selected.Some? && selected.value.id == chat.id, icon, chat.name,
        if chat.lastMessage.Some? then Some(chat.lastMessage.value.content) else None,
        if chat.unreadCount > 0 then Some(chat.unreadCount) else None)
  }

  /** The row of a user picked from the list: highlighted once selected, nothing unread, and
      the user's initials, since the picker keeps no picture. */
  lemma ProvisionalRow(me: UiUser, v: Records.UserView)
    requires AsListed(v).id != me.id && v.username != ""
    ensures var c := ProvisionalChat(me, AsListed(v));
      RenderRow(c, me, Some(c)) == Row(true, Letters(Initials(v.username)), v.username, None, None)
  {
    ProvisionalChatTalksToPicked(me, AsListed(v));
  }

  /** The profile modal's letters: `username.split(' ').map(n => n[0]).join('').slice(0, 2)
      .toUpperCase()`. */
  function ProfileInitials(name: string): (r: string)
    ensures r == Initials(name)
  {
    JoinedInitialsAgree(name);
    ToUpper(Take(Concat(Map(Split(name, ' '), FirstChar)), 2))
  }

  /** The profile modal shows the viewer's picture when it is truthy and the letters otherwise;
      it agrees with what the header's `Avatar` shows. */
  function ProfileBadge(me: UiUser): (icon: RowIcon)
    ensures icon.Picture? <==> Truthy(me.avatar)
    ensures icon.Picture? ==> Some(icon.url) == Render(me, Some(Md)).image
    ensures icon.Letters? ==> icon.initials == Render(me, Some(Md)).initials
  {
    if Truthy(me.avatar) then Picture(me.avatar.value) else Letters(ProfileInitials(me.username))
  }

  /** The logout button: the server request's outcome is only reported, then the socket is
      disconnected, the stored token and user are removed and the browser goes to `/login`. */
  method ConfirmLogout(browser: ApiClient.Browser, sockets: SocketClient.SocketManager)
    modifies browser`storage, browser`location, sockets`socket, sockets.socket
    ensures sockets.socket == null
    ensures old(sockets.socket) != null ==> !old(sockets.socket).connected
    ensures browser.storage == old(browser.storage) - {ApiClient.TokenKey, ApiClient.UserKey}
    ensures browser.location == ApiClient.LoginPage
  {
    sockets.DisconnectSocket();
    browser.RemoveItem(ApiClient.TokenKey);
    browser.RemoveItem(ApiClient.UserKey);
    browser.Navigate(ApiClient.LoginPage);
  }
}
