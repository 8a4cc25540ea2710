/** `app/api/files.py`: attachment metadata. The upload itself happens elsewhere; this API
    validates and stores the record (name, URL, size and the one message or chat it belongs
    to) and lets the uploader list, read and delete it. */
module FilesApi {
  import opened Common
  import opened Tables
  import opened Records
  import opened Database

  /** The JSON body of POST /files/. Sizes and ids are numbers; other JSON types are not part of
      this model. */
  datatype FileRequest = FileRequest(filename: Field<string>, fileUrl: Field<string>,
                                     fileSize: Field<int>, publicMessageId: Field<int>,
                                     privateChatId: Field<int>)

  /** 5 MB in bytes. */
  const MaxFileSize: int := 5 * 1024 * 1024

  /** The accepted extensions (a Python set in the source; order is irrelevant). */
  const AllowedExtensions: seq<string> :=
    [".pdf", ".doc", ".docx", ".jpg", ".jpeg", ".png", ".gif", ".bmp", ".tiff", ".webp"]

  const MissingFields := Rejection(400, "Missing required fields: filename, file_url, file_size")
  const TooLarge := Rejection(400, "File size exceeds 5MB limit")
  const BadType := Rejection(400, "Invalid file type. Allowed: PDF, DOC, DOCX, and image files")
  const BadAssociation := Rejection(400, "Exactly one association required: public_message_id, or private_chat_id")
  const InvalidPublicMessage := Rejection(400, "Invalid public message")
  const InvalidPrivateChat := Rejection(400, "Invalid private chat")
  const FileNotFound := Rejection(404, "File not found")
  const AccessDenied := Rejection(403, "Access denied")

  /** `any(s.endswith(ext) for ext in exts)`. */
  function AnyEndsWith(s: string, exts: seq<string>): (r: bool)
    ensures r <==> exists k :: 0 <= k < |exts| && EndsWith(s, exts[k])
  {
    if exts == [] then false
    else if EndsWith(s, exts[0]) then true
    else
      var r := AnyEndsWith(s, exts[1..]);
      assert r <==> exists k :: 1 <= k < |exts| && EndsWith(s, exts[k]) by {
        if r {
          var k :| 0 <= k < |exts[1..]| && EndsWith(s, exts[1..][k]);
          assert exts[k + 1] == exts[1..][k];
        }
        if exists k :: 1 <= k < |exts| && EndsWith(s, exts[k]) {
          var k :| 1 <= k < |exts| && EndsWith(s, exts[k]);
          assert exts[1..][k - 1] == exts[k];
        }
      }
      r
  }

  /** The type check: the lower-cased name ends with an allowed extension. */
  predicate AllowedType(filename: string) {
    AnyEndsWith(ToLower(filename), AllowedExtensions)
  }

  /** The type check ignores ASCII case: a name and its lower-cased form are judged alike. */
  lemma AllowedTypeIgnoresCase(filename: string)
    ensures AllowedType(filename) == AllowedType(ToLower(filename))
  {
    assert ToLower(ToLower(filename)) == ToLower(filename);
  }

  /** Upper-case extensions are accepted. */
  lemma AcceptedTypeExamples()
    ensures AllowedType("Report.PDF") && AllowedType("photo.jpeg")
  {
    assert EndsWith(ToLower("Report.PDF"), AllowedExtensions[0]);
    assert EndsWith(ToLower("photo.jpeg"), AllowedExtensions[4]);
  }

  /** A text file is refused, and so is a bare extension name without its dot. */
  lemma RejectedTypeExamples()
    ensures !AllowedType("notes.txt") && !AllowedType("pdf")
  {
    var name := "notes.txt";
    assert ToLower(name) == name;
    forall k | 0 <= k < |AllowedExtensions| ensures !EndsWith(name, AllowedExtensions[k]) {
      var e := AllowedExtensions[k];
      assert e[|e| - 1] != 't';
      if |e| <= |name| {
        var tail := name[|name| - |e|..];
        assert tail[|e| - 1] == 't';
      }
    }
    assert forall k :: 0 <= k < |AllowedExtensions| ==> |AllowedExtensions[k]| >= 4;
  }

  /** `k in data and data[k] is not None`. */
  predicate Provided<T>(f: Field<T>) {
    f.Given?
  }

  /** `data.get(k)`: a missing key and an explicit null both read as None. */
  function Get<T>(f: Field<T>): (r: Option<T>)
    ensures r.Some? <==> f.Given?
    ensures r.Some? ==> r.value == f.value
  {
    if f.Given? then Some(f.value) else None
  }

  predicate HasRequiredFields(req: FileRequest) {
    !req.filename.Absent? && !req.fileUrl.Absent? && !req.fileSize.Absent?
  }

  predicate SizeAccepted(req: FileRequest) {
    req.fileSize.Given? && req.fileSize.value <= MaxFileSize
  }

  predicate TypeAccepted(req: FileRequest) {
    req.filename.Given? && AllowedType(req.filename.value)
  }

  /** Exactly one of the two associations is given and not null. */
  predicate OneAssociation(req: FileRequest) {
    Provided(req.publicMessageId) != Provided(req.privateChatId)
  }

  /** The public message exists and the caller wrote it. */
  predicate OwnsPublicMessage(messages: seq<Message>, caller: nat, id: int) {
    Lookup(messages, MessageId, id).Some? && Lookup(messages, MessageId, id).value.userId == caller
  }

  /** The private chat exists and the caller is one of its two users. */
  predicate InPrivateChat(chats: seq<PrivateChat>, caller: nat, id: int) {
    Lookup(chats, ChatId, id).Some? &&
    (Lookup(chats, ChatId, id).value.user1Id == caller || Lookup(chats, ChatId, id).value.user2Id == caller)
  }

  /** The checks of `create_file`, in source order: required keys, size, type, association
      count, ownership of the association. A null size or name makes the comparison or
      `.lower()` raise; a null URL passes the checks and fails the NOT NULL constraint at
      commit. `None` means the record is stored. */
  function CreateFileCheck(messages: seq<Message>, chats: seq<PrivateChat>, caller: nat, req: FileRequest)
    : (r: Option<Rejection>)
    ensures r == Some(MissingFields) <==> !HasRequiredFields(req)
    ensures r == Some(TooLarge) <==>
      HasRequiredFields(req) && req.fileSize.Given? && req.fileSize.value > MaxFileSize
    ensures r == Some(BadType) <==>
      HasRequiredFields(req) && SizeAccepted(req) && req.filename.Given? && !AllowedType(req.filename.value)
    ensures r == Some(BadAssociation) <==>
      HasRequiredFields(req) && SizeAccepted(req) && TypeAccepted(req) && !OneAssociation(req)
    ensures r == Some(InvalidPublicMessage) <==>
      && HasRequiredFields(req) && SizeAccepted(req) && TypeAccepted(req) && OneAssociation(req)
      && req.publicMessageId.Given? && !OwnsPublicMessage(messages, caller, req.publicMessageId.value)
    ensures r == Some(InvalidPrivateChat) <==>
      && HasRequiredFields(req) && SizeAccepted(req) && TypeAccepted(req) && OneAssociation(req)
      && req.privateChatId.Given? && !InPrivateChat(chats, caller, req.privateChatId.value)
    ensures r.None? <==>
      && HasRequiredFields(req) && SizeAccepted(req) && TypeAccepted(req) && OneAssociation(req)
      && (req.publicMessageId.Given? ==> OwnsPublicMessage(messages, caller, req.publicMessageId.value))
      && (req.privateChatId.Given? ==> InPrivateChat(chats, caller, req.privateChatId.value))
      && req.fileUrl.Given?
    ensures r.Some? ==> r.value.status == 400 || r.value == Crash
  {
    if !HasRequiredFields(req) then Some(MissingFields)
    else if req.fileSize.Null? then Some(Crash)
    else if req.fileSize.value > MaxFileSize then Some(TooLarge)
    else if req.filename.Null? then Some(Crash)
    else if !AllowedType(req.filename.value) then Some(BadType)
    else if !OneAssociation(req) then Some(BadAssociation)
    else if req.publicMessageId.Given? then
      if !OwnsPublicMessage(messages, caller, req.publicMessageId.value) then Some(InvalidPublicMessage)
      else if !req.fileUrl.Given? then Some(Crash)
      else None
    else
      if !InPrivateChat(chats, caller, req.privateChatId.value) then Some(InvalidPrivateChat)
      else if !req.fileUrl.Given? then Some(Crash)
      else None
  }

  /** The size limit is inclusive: a file of exactly 5 MB is not refused for its size, one byte
      more is. */
  lemma SizeLimitInclusive(messages: seq<Message>, chats: seq<PrivateChat>, caller: nat, req: FileRequest)
    requires HasRequiredFields(req)
    ensures req.fileSize == Given(5242880) ==> CreateFileCheck(messages, chats, caller, req) != Some(TooLarge)
    ensures req.fileSize == Given(5242881) ==> CreateFileCheck(messages, chats, caller, req) == Some(TooLarge)
  {
  }

  /** POST /files/: on success exactly one record is stored, uploaded by the caller, with the
      name as given (not lower-cased). */
  method CreateFile(db: Db, caller: nat, req: FileRequest, now: int) returns (r: Reply<FileRecord>)
    requires db.Valid()
    modifies db`files, db`nextFileId
    ensures db.Valid()
    ensures var check := CreateFileCheck(db.messages, db.chats, caller, req);
      check.Some? ==> r == Err(check.value.status, check.value.message) && db.files == old(db.files)
    ensures CreateFileCheck(db.messages, db.chats, caller, req).None? ==>
      var f := FileRecord(old(db.nextFileId), req.filename.value, req.fileUrl.value, req.fileSize.value,
                          now, caller, Get(req.publicMessageId), Get(req.privateChatId));
      db.files == old(db.files) + [f] && r == Ok(201, f)
  {
    var check := CreateFileCheck(db.messages, db.chats, caller, req);
    if check.Some? {
      return Err(check.value.status, check.value.message);
    }
    var f := db.AddFile(req.filename.value, req.fileUrl.value, req.fileSize.value, caller,
                        Get(req.publicMessageId), Get(req.privateChatId), now);
    r := Ok(201, f);
  }

  /** A stored record is attached to exactly one message or chat, which the uploader may use. */
  lemma StoredFileAttachedOnce(messages: seq<Message>, chats: seq<PrivateChat>, caller: nat, req: FileRequest)
    requires CreateFileCheck(messages, chats, caller, req).None?
    ensures Get(req.publicMessageId).Some? != Get(req.privateChatId).Some?
    ensures Get(req.publicMessageId).Some? ==> OwnsPublicMessage(messages, caller, Get(req.publicMessageId).value)
    ensures Get(req.privateChatId).Some? ==> InPrivateChat(chats, caller, Get(req.privateChatId).value)
    ensures req.fileSize.value <= MaxFileSize && AllowedType(req.filename.value)
  {
  }

  // ---------------------------------------------------------------- queries

  /** `File.query.filter_by(...).order_by(File.uploaded_at.desc())`. */
  function NewestFirst(files: seq<FileRecord>, p: FileRecord -> bool): (r: seq<FileRecord>)
    ensures forall f :: f in r <==> f in files && p(f)
    ensures forall i, j :: 0 <= i < j < |r| ==> r[i].uploadedAt >= r[j].uploadedAt
    ensures multiset(r) == multiset(Where(files, p))
  {
    var r := OrderByDesc(Where(files, p), FileTime);
    assert forall f :: f in r <==> f in multiset(r);
    r
  }

  /** GET /files/: the caller's own uploads, newest first. */
  function GetFiles(files: seq<FileRecord>, caller: nat): (r: Reply<seq<FileRecord>>)
    ensures r.Ok? && r.status == 200
    ensures forall f :: f in r.body <==> f in files && f.uploaderId == caller
    ensures forall i, j :: 0 <= i < j < |r.body| ==> r.body[i].uploadedAt >= r.body[j].uploadedAt
  {
    Ok(200, NewestFirst(files, (f: FileRecord) => f.uploaderId == caller))
  }

  /** GET /files/private/<chat_id>: the chat's attachments, newest first, for any caller. */
  function GetFilesPrivate(files: seq<FileRecord>, chatId: int): (r: Reply<seq<FileRecord>>)
    ensures r.Ok? && r.status == 200
    ensures forall f :: f in r.body <==> f in files && f.privateChatId == Some(chatId)
    ensures forall i, j :: 0 <= i < j < |r.body| ==> r.body[i].uploadedAt >= r.body[j].uploadedAt
  {
    Ok(200, NewestFirst(files, (f: FileRecord) => f.privateChatId == Some(chatId)))
  }

  /** GET /files/public/<message_id>: the message's attachments, newest first, for any caller. */
  function GetFilesPublic(files: seq<FileRecord>, messageId: int): (r: Reply<seq<FileRecord>>)
    ensures r.Ok? && r.status == 200
    ensures forall f :: f in r.body <==> f in files && f.publicMessageId == Some(messageId)
    ensures forall i, j :: 0 <= i < j < |r.body| ==> r.body[i].uploadedAt >= r.body[j].uploadedAt
  {
    Ok(200, NewestFirst(files, (f: FileRecord) => f.publicMessageId == Some(messageId)))
  }

  /** A message's attachments as GET /files/public lists them are the ones its `to_dict`
      embeds, in possibly another order. */
  lemma PublicFilesMatchSerialiser(files: seq<FileRecord>, id: nat)
    ensures forall f :: f in GetFilesPublic(files, id).body <==> f in FilesOfMessage(files, id)
  {
  }

  /** The checks of GET and DELETE /files/<id>, in order: the record exists, then the caller
      uploaded it. */
  function FileAccessCheck(files: seq<FileRecord>, caller: nat, id: int): (r: Option<Rejection>)
    ensures r == Some(FileNotFound) <==> Lookup(files, FileId, id).None?
    ensures r == Some(AccessDenied) <==>
      Lookup(files, FileId, id).Some? && Lookup(files, FileId, id).value.uploaderId != caller
    ensures r.None? <==> Lookup(files, FileId, id).Some? && Lookup(files, FileId, id).value.uploaderId == caller
  {
    match Lookup(files, FileId, id)
    case None => Some(FileNotFound)
    case Some(f) => if f.uploaderId != caller then Some(AccessDenied) else None
  }

  /** GET /files/<id>. */
  function GetFile(files: seq<FileRecord>, caller: nat, id: int): (r: Reply<FileRecord>)
    ensures var check := FileAccessCheck(files, caller, id);
      check.Some? ==> r == Err(check.value.status, check.value.message)
    ensures FileAccessCheck(files, caller, id).None? ==> r == Ok(200, Lookup(files, FileId, id).value)
    ensures r.Ok? ==> r.status == 200 && r.body in files && r.body.id == id && r.body.uploaderId == caller
    ensures r.Err? ==> r.status in {403, 404}
  {
    match FileAccessCheck(files, caller, id)
    case Some(j) => Err(j.status, j.message)
    case None => Ok(200, Lookup(files, FileId, id).value)
  }

  /** DELETE /files/<id>. */
  method DeleteFile(db: Db, caller: nat, id: int) returns (r: Reply<string>)
    requires db.Valid()
    modifies db`files
    ensures db.Valid()
    ensures var check := FileAccessCheck(old(db.files), caller, id);
      check.Some? ==> r == Err(check.value.status, check.value.message) && db.files == old(db.files)
    ensures FileAccessCheck(old(db.files), caller, id).None? ==>
      && db.files == Delete(old(db.files), FileId, id)
      && |db.files| == |old(db.files)| - 1
      && r == Ok(200, "File deleted")
  {
    var check := FileAccessCheck(db.files, caller, id);
    if check.Some? {
      return Err(check.value.status, check.value.message);
    }
    DeleteOne(db.files, FileId, id);
    ghost var before := db.files;
    db.files := Delete(db.files, FileId, id);
    assert KeysBelow(db.files, FileId, db.nextFileId) by {
      forall i | 0 <= i < |db.files| ensures db.files[i].id < db.nextFileId {
        assert db.files[i] in before;
      }
    }
    r := Ok(200, "File deleted");
  }
}
