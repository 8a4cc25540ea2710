/** `components/ChatWindow.tsx`: the message list of the open chat. It loads the history when
    the chat changes and appends what the user sends locally, without waiting for the server.

    Requests are the parameter `fetch`, from request path to outcome. `Date.now()` and
    `new Date()` are the parameter `now`, read once per send. The "same day" test lives in
    `lib/utils`, which is not part of this model, so it is the parameter `differentDay`. */
module ChatWindow {
  import opened Common
  import opened Records
  import opened UiTypes

  /** A message as the REST API returns it: the author is under `user` for public messages
      and under `sender` for private ones. */
  datatype WireMessage = WireMessage(id: nat, content: string, authorId: nat, authorName: string,
                                     authorAvatar: Option<string>, timestamp: int)

  /** A public message's JSON (`Message.to_dict`) read as a wire message. */
  function FromPublicDict(d: MessageDict): (w: WireMessage)
    ensures w.id == d.id && w.content == d.content && w.timestamp == d.timestamp
    ensures w.authorId == d.user.id && w.authorName == d.user.username && w.authorAvatar == d.user.avatarUrl
  {
    WireMessage(d.id, d.content, d.user.id, d.user.username, d.user.avatarUrl, d.timestamp)
  }

  /** The record mapping of the fetch: ids become decimal strings, the sender gets an empty
      email and the author's `avatar_url`, and the message is a text message. */
  function ToUiMessage(w: WireMessage): (m: UiMessage)
    ensures ParseInt(m.id) == Some(w.id as int) && ParseInt(m.senderId) == Some(w.authorId as int)
    ensures m.sender.id == m.senderId
    ensures m.content == w.content && m.timestamp == w.timestamp
    ensures m.sender.username == w.authorName && m.sender.email == "" && m.sender.avatar == w.authorAvatar
    ensures m.kind == Text && m.file.None?
  {
    ParseDecimalRoundTrip(w.id);
    ParseDecimalRoundTrip(w.authorId);
    var author := UiUser(NatToDecimal(w.authorId), w.authorName, "", w.authorAvatar);
    UiMessage(NatToDecimal(w.id), w.content, author.id, author, w.timestamp, Text, None)
  }

  /** Messages with different server ids keep different keys on the client. */
  lemma FetchedIdsDistinct(a: WireMessage, b: WireMessage)
    requires a.id != b.id
    ensures ToUiMessage(a).id != ToUiMessage(b).id
  {
    if ToUiMessage(a).id == ToUiMessage(b).id {
      NatToDecimalInjective(a.id, b.id);
    }
  }

  /** `participants.find(p => p.id !== me)`: the first participant who is not the viewer. */
  function FirstOther(participants: seq<UiUser>, me: string): (r: Option<UiUser>)
    ensures r.None? <==> forall k :: 0 <= k < |participants| ==> participants[k].id == me
    ensures r.Some? ==> exists k :: && 0 <= k < |participants| && participants[k] == r.value
                                    && r.value.id != me
                                    && forall j :: 0 <= j < k ==> participants[j].id == me
  {
    if participants == [] then None
    else if participants[0].id != me then Some(participants[0])
    else
      var r := FirstOther(participants[1..], me);
      assert r.Some? ==> exists k :: && 0 <= k < |participants| && participants[k] == r.value
                                      && forall j :: 0 <= j < k ==> participants[j].id == me by {
        if r.Some? {
          var k :| && 0 <= k < |participants[1..]| && participants[1..][k] == r.value
                   && forall j :: 0 <= j < k ==> participants[1..][j].id == me;
          assert participants[k + 1] == r.value;
        }
      }
      r
  }

  /** The outcome of a request. */
  datatype Fetch = Failed | Fetched(records: seq<WireMessage>)

  const PublicMessagesPath := "/messages"

  function PrivateMessagesPath(otherId: string): string {
    "/messages/private/" + otherId
  }

  /** `String(message.senderId) === String(user.id)`: both are strings here. */
  predicate IsOwn(message: UiMessage, user: UiUser) {
    message.senderId == user.id
  }

  /** A fetched message is the viewer's own iff the viewer's id is the decimal form of its
      author id. */
  lemma FetchedIsOwn(w: WireMessage, user: UiUser)
    ensures IsOwn(ToUiMessage(w), user) <==> user.id == NatToDecimal(w.authorId)
  {
  }

  /** `showDateSeparator` for message `i`: the first message, or one whose day differs from
      the previous message's. */
  predicate ShowDateSeparator(messages: seq<UiMessage>, i: nat, differentDay: (int, int) -> bool)
    requires i < |messages|
  {
    i == 0 || differentDay(messages[i - 1].timestamp, messages[i].timestamp)
  }

  /** Appending messages does not move the separators already shown, and a non-empty list
      always opens with one. */
  lemma SeparatorsStableUnderAppend(messages: seq<UiMessage>, extra: seq<UiMessage>, i: nat,
                                    differentDay: (int, int) -> bool)
    requires i < |messages|
    ensures ShowDateSeparator(messages + extra, i, differentDay) == ShowDateSeparator(messages, i, differentDay)
    ensures ShowDateSeparator(messages + extra, 0, differentDay)
  {
    assert (messages + extra)[i] == messages[i];
  }

  // ---------------------------------------------------------------- sending

  /** The prefix of this send's message ids, `msg-<now>-`. */
  function IdPrefix(now: nat): string {
    "msg-" + NatToDecimal(now) + "-"
  }

  function TextMessage(content: string, user: UiUser, now: nat): UiMessage {
    UiMessage(IdPrefix(now) + "text", content, user.id, user, now, Text, None)
  }

  function FileMessage(f: ProcessedFile, index: nat, user: UiUser, now: nat): UiMessage {
    UiMessage(IdPrefix(now) + "file-" + NatToDecimal(index), "", user.id, user, now, File,
              Some(FileData("file-" + NatToDecimal(now) + "-" + NatToDecimal(index),
                            f.name, f.size, f.fileType, f.url, f.thumbnail)))
  }

  /** The text message, when the content is not blank. */
  function TextPart(content: string, user: UiUser, now: nat): seq<UiMessage> {
    if IsBlank(content, JavaScript) then [] else [TextMessage(content, user, now)]
  }

  /** One file message per processed file, in order. */
  function FileMessages(files: seq<ProcessedFile>, user: UiUser, now: nat): seq<UiMessage> {
    seq(|files|, i requires 0 <= i < |files| => FileMessage(files[i], i, user, now))
  }

  /** What `onSendMessage` appends. */
  function Outgoing(content: string, files: seq<ProcessedFile>, user: UiUser, now: nat): seq<UiMessage> {
    TextPart(content, user, now) + FileMessages(files, user, now)
  }

  /** `onSendMessage`'s loop: the text message first when the trimmed content is not empty,
      then one message per file. */
  method BuildOutgoing(content: string, files: seq<ProcessedFile>, user: UiUser, now: nat)
    returns (out: seq<UiMessage>)
    ensures out == Outgoing(content, files, user, now)
  {
    out := [];
    if Trim(content, JavaScript) != "" {
      out := out + [TextMessage(content, user, now)];
    }
    assert out == TextPart(content, user, now);
    out := AppendFileMessages(out, files, user, now);
  }

  /** The loop over the processed files: one message per file appended, in order. */
  method AppendFileMessages(head: seq<UiMessage>, files: seq<ProcessedFile>, user: UiUser, now: nat)
    returns (out: seq<UiMessage>)
    ensures out == head + FileMessages(files, user, now)
  {
    out := head;
    ghost var expected := FileMessages(files, user, now);
    var i := 0;
    while i < |files|
      invariant 0 <= i <= |files|
      invariant out == head + expected[..i]
    {
      var m := FileMessage(files[i], i, user, now);
      assert m == expected[i];
      assert expected[..i + 1] == expected[..i] + [m];
      assert (head + expected[..i]) + [m] == head + (expected[..i] + [m]);
      out := out + [m];
      i := i + 1;
    }
    assert expected[..i] == expected;
  }

  /** Position by position: the text message (when there is one), then the file messages. */
  lemma OutgoingAt(content: string, files: seq<ProcessedFile>, user: UiUser, now: nat, k: nat)
    requires k < |Outgoing(content, files, user, now)|
    ensures var t := |TextPart(content, user, now)|;
      Outgoing(content, files, user, now)[k] ==
        if k < t then TextMessage(content, user, now) else FileMessage(files[k - t], k - t, user, now)
  {
    var t := TextPart(content, user, now);
    var fs := FileMessages(files, user, now);
    assert Outgoing(content, files, user, now) == t + fs;
    if k < |t| {
      assert (t + fs)[k] == t[k] == TextMessage(content, user, now);
    } else {
      assert (t + fs)[k] == fs[k - |t|] == FileMessage(files[k - |t|], k - |t|, user, now);
    }
  }

  /** The appended messages: the untrimmed text first when it is not blank, then one message
      per file, in input order. */
  lemma OutgoingShape(content: string, files: seq<ProcessedFile>, user: UiUser, now: nat)
    ensures var out := Outgoing(content, files, user, now);
      && |out| == TextCount(content) + |files|
      && (!IsBlank(content, JavaScript) ==> out[0].kind == Text && out[0].content == content)
      && (forall i :: 0 <= i < |files| ==> out[TextCount(content) + i] == FileMessage(files[i], i, user, now))
  {
    var out := Outgoing(content, files, user, now);
    var t := TextCount(content);
    assert |TextPart(content, user, now)| == t;
    if !IsBlank(content, JavaScript) {
      assert out[0] == TextMessage(content, user, now);
    }
    forall i | 0 <= i < |files| ensures out[t + i] == FileMessage(files[i], i, user, now) {
      OutgoingAt(content, files, user, now, t + i);
    }
  }

  /** How many text messages a send appends: one unless the content is blank. */
  function TextCount(content: string): nat {
    if IsBlank(content, JavaScript) then 0 else 1
  }

  /** A file message has empty content and carries the file's name, size, type, URL and
      thumbnail. */
  lemma FileMessageCarriesFile(f: ProcessedFile, index: nat, user: UiUser, now: nat)
    ensures var m := FileMessage(f, index, user, now);
      && m.kind == File && m.content == "" && m.file.Some?
      && m.file.value.name == f.name && m.file.value.size == f.size && m.file.value.fileType == f.fileType
      && m.file.value.url == f.url && m.file.value.thumbnail == f.thumbnail
  {
  }

  /** Every appended message is the viewer's own and stamped `now`. */
  lemma OutgoingIsOwn(content: string, files: seq<ProcessedFile>, user: UiUser, now: nat)
    ensures forall m :: m in Outgoing(content, files, user, now) ==> IsOwn(m, user) && m.timestamp == now
  {
    var out := Outgoing(content, files, user, now);
    forall m | m in out ensures IsOwn(m, user) && m.timestamp == now {
      var k :| 0 <= k < |out| && out[k] == m;
      OutgoingAt(content, files, user, now, k);
    }
  }

  /** `msg-<now>-text` differs from every `msg-<now>-file-<i>`. */
  lemma TextIdNotFileId(now: nat, i: nat)
    ensures IdPrefix(now) + "text" != IdPrefix(now) + "file-" + NatToDecimal(i)
  {
    var p := IdPrefix(now);
    assert (p + "text")[|p|] == 't';
    assert (p + "file-" + NatToDecimal(i))[|p|] == 'f';
  }

  /** Two file messages of one send have different ids. */
  lemma FileIdsDistinct(now: nat, i: nat, j: nat)
    requires i != j
    ensures IdPrefix(now) + "file-" + NatToDecimal(i) != IdPrefix(now) + "file-" + NatToDecimal(j)
  {
    var q := IdPrefix(now) + "file-";
    var a := NatToDecimal(i);
    var b := NatToDecimal(j);
    assert IdPrefix(now) + "file-" + a == q + a;
    assert IdPrefix(now) + "file-" + b == q + b;
    if q + a == q + b {
      assert (q + a)[|q|..] == a && (q + b)[|q|..] == b;
      NatToDecimalInjective(i, j);
    }
  }

  /** The ids of one send are pairwise distinct. */
  lemma OutgoingIdsDistinct(content: string, files: seq<ProcessedFile>, user: UiUser, now: nat)
    ensures var out := Outgoing(content, files, user, now);
      forall i, j :: 0 <= i < j < |out| ==> out[i].id != out[j].id
  {
    var out := Outgoing(content, files, user, now);
    var t := |TextPart(content, user, now)|;
    forall i, j | 0 <= i < j < |out| ensures out[i].id != out[j].id {
      OutgoingAt(content, files, user, now, i);
      OutgoingAt(content, files, user, now, j);
      if i < t {
        TextIdNotFileId(now, j - t);
      } else {
        FileIdsDistinct(now, i - t, j - t);
      }
    }
  }

  /** The list state of one open chat window. */
  class ChatWindowState {
    var messages: seq<UiMessage>
    var loadingMessages: bool
    var totalUsers: int

    constructor ()
      ensures messages == [] && !loadingMessages && totalUsers == 0
    {
      messages := [];
      loadingMessages := false;
      totalUsers := 0;
    }

    /** `fetchMessages`: no chat empties the list; a failed request empties it too; a
        private chat without another participant leaves it as it was. For the public chat,
        the member count follows the `/users/` request (`usersCount`), 1 when that fails. */
    method FetchMessages(chat: Option<Chat>, user: UiUser, fetch: string -> Fetch, usersCount: Option<nat>)
      modifies this`messages, this`loadingMessages, this`totalUsers
      ensures chat.None? ==> messages == [] && loadingMessages == old(loadingMessages)
      ensures chat.Some? ==> !loadingMessages
      ensures chat.Some? && chat.value.kind == Public ==>
        && (fetch(PublicMessagesPath).Failed? ==> messages == [] && totalUsers == old(totalUsers))
        && (fetch(PublicMessagesPath).Fetched? ==>
              && messages == Map(fetch(PublicMessagesPath).records, ToUiMessage)
              && totalUsers == (if usersCount.Some? then usersCount.value else 1))
      ensures chat.Some? && chat.value.kind == Private ==>
        var other := FirstOther(chat.value.participants, user.id);
        && totalUsers == old(totalUsers)
        && (other.None? ==> messages == old(messages))
        && (other.Some? && fetch(PrivateMessagesPath(other.value.id)).Failed? ==> messages == [])
        && (other.Some? && fetch(PrivateMessagesPath(other.value.id)).Fetched? ==>
              messages == Map(fetch(PrivateMessagesPath(other.value.id)).records, ToUiMessage))
    {
      if chat.None? {
        messages := [];
        return;
      }
      loadingMessages := true;
      if chat.value.kind == Public {
        var response := fetch(PublicMessagesPath);
        if response.Failed? {
          messages := [];
        } else {
          messages := Map(response.records, ToUiMessage);
          totalUsers := if usersCount.Some? then usersCount.value else 1;
        }
      } else {
        var other := FirstOther(chat.value.participants, user.id);
        if other.Some? {
          var response := fetch(PrivateMessagesPath(other.value.id));
          if response.Failed? {
            messages := [];
          } else {
            messages := Map(response.records, ToUiMessage);
          }
        }
      }
      loadingMessages := false;
    }

    /** `onSendMessage`: the new messages go after every message already listed. */
    method OnSendMessage(content: string, files: seq<ProcessedFile>, user: UiUser, now: nat)
      modifies this`messages
      ensures messages == old(messages) + Outgoing(content, files, user, now)
    {
      var sent := BuildOutgoing(content, files, user, now);
      messages := messages + sent;
    }
  }
}
