/** `lib/types.ts`: the records the Next.js client renders. Ids are strings on the client; an
    optional property (`avatar?`, `file?`, `lastMessage?`) is an `Option`. */
module UiTypes {
  import opened Common

  datatype UiUser = UiUser(id: string, username: string, email: string, avatar: Option<string>)

  datatype FileData = FileData(id: string, name: string, size: int, fileType: string, url: string,
                               thumbnail: Option<string>)

  /** `Message.type`: `'text' | 'file'`. */
  datatype MessageKind = Text | File

  datatype UiMessage = UiMessage(id: string, content: string, senderId: string, sender: UiUser,
                                 timestamp: int, kind: MessageKind, file: Option<FileData>)

  /** `Chat.type`: `'public' | 'private'`. */
  datatype ChatKind = Public | Private

  datatype Chat = Chat(id: string, name: string, kind: ChatKind, participants: seq<UiUser>,
                       lastMessage: Option<UiMessage>, unreadCount: int)

  /** What the message input hands to `onSendMessage` for each attached file. */
  datatype ProcessedFile = ProcessedFile(name: string, size: int, fileType: string, url: string,
                                         thumbnail: Option<string>)

  /** An id argument typed `string | number`. */
  datatype JsId = JsNum(n: int) | JsStr(s: string)

  /** JavaScript truthiness of an optional string: present and not `''`. */
  predicate Truthy(s: Option<string>) {
    s.Some? && s.value != ""
  }

  /** `a || b` on optional strings: the first truthy one, else `b`. */
  function OrElse(a: Option<string>, b: Option<string>): (r: Option<string>)
    ensures Truthy(a) ==> r == a
    ensures !Truthy(a) ==> r == b
  {
    if Truthy(a) then a else b
  }
}
