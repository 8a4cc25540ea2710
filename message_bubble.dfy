/** `components/MessageBubble.tsx`: how one message is laid out. Styling is left out; what is
    kept is each condition that decides what appears. */
module MessageBubble {
  import opened Common
  import opened UiTypes

  /** The icons `getFileIcon` returns, in the order it tests for them. */
  datatype FileIcon = PdfIcon | WordIcon | SheetIcon | SlidesIcon | ArchiveIcon | GenericIcon

  /** `getFileIcon`: the first test that matches the MIME type decides. */
  function GetFileIcon(fileType: string): (r: FileIcon)
    ensures r == PdfIcon <==> Contains(fileType, "pdf")
    ensures r == WordIcon <==>
      !Contains(fileType, "pdf") && (Contains(fileType, "doc") || Contains(fileType, "word"))
    ensures r == SheetIcon <==>
      && !Contains(fileType, "pdf") && !Contains(fileType, "doc") && !Contains(fileType, "word")
      && (Contains(fileType, "xls") || Contains(fileType, "excel"))
    ensures r == SlidesIcon <==>
      && !Contains(fileType, "pdf") && !Contains(fileType, "doc") && !Contains(fileType, "word")
      && !Contains(fileType, "xls") && !Contains(fileType, "excel")
      && (Contains(fileType, "ppt") || Contains(fileType, "powerpoint"))
    ensures r == ArchiveIcon <==>
      && !Contains(fileType, "pdf") && !Contains(fileType, "doc") && !Contains(fileType, "word")
      && !Contains(fileType, "xls") && !Contains(fileType, "excel")
      && !Contains(fileType, "ppt") && !Contains(fileType, "powerpoint")
      && (Contains(fileType, "zip") || Contains(fileType, "rar"))
  {
    if Contains(fileType, "pdf") then PdfIcon
    else if Contains(fileType, "doc") || Contains(fileType, "word") then WordIcon
    else if Contains(fileType, "xls") || Contains(fileType, "excel") then SheetIcon
    else if Contains(fileType, "ppt") || Contains(fileType, "powerpoint") then SlidesIcon
    else if Contains(fileType, "zip") || Contains(fileType, "rar") then ArchiveIcon
    else GenericIcon
  }

  /** Two concrete MIME types and the icons they get. */
  lemma FileIconExamples()
    ensures GetFileIcon("application/pdf") == PdfIcon
    ensures GetFileIcon("application/zip") == ArchiveIcon
  {
    assert OccursAt("application/pdf", "pdf", 12);
    var zip := "application/zip";
    MissingChar(zip, "pdf", 'd');
    MissingChar(zip, "doc", 'd');
    MissingChar(zip, "word", 'w');
    MissingChar(zip, "xls", 'x');
    MissingChar(zip, "excel", 'x');
    MissingChar(zip, "powerpoint", 'w');
    assert !Contains(zip, "ppt") by {
      forall i | 0 <= i <= |zip| - 3 ensures !OccursAt(zip, "ppt", i) {
        assert zip[i..i + 3][0] == zip[i] && zip[i..i + 3][2] == zip[i + 2];
        assert zip[i] != 'p' || zip[i + 2] != 't';
      }
    }
    assert OccursAt("application/zip", "zip", 12);
  }

  /** A string lacking one of the characters of `sub` does not contain `sub`. */
  lemma MissingChar(s: string, sub: string, c: char)
    requires c in sub && c !in s
    ensures !Contains(s, sub)
  {
    forall i | 0 <= i <= |s| - |sub| ensures !OccursAt(s, sub, i) {
      var k :| 0 <= k < |sub| && sub[k] == c;
      assert s[i..i + |sub|][k] == s[i + k];
    }
  }

  /** The common start of the Office Open XML types, written in pieces that each lack a
      character of "pdf". */
  const OfficePrefix := "application/vnd." + "openxmlformats-office" + "document."
  const OfficeSheetType := OfficePrefix + "spreadsheetml.sheet"
  const OfficeSlidesType := OfficePrefix + "presentationml.presentation"

  /** The workbook and the slide deck get the Word icon. */
  lemma OfficeFormatsGetWordIcon()
    ensures GetFileIcon(OfficeSheetType) == WordIcon
    ensures GetFileIcon(OfficeSlidesType) == WordIcon
  {
    MissingChar("spreadsheetml.sheet", "pdf", 'f');
    OfficeTypeGetsWordIcon("spreadsheetml.sheet");
    MissingChar("presentationml.presentation", "pdf", 'f');
    OfficeTypeGetsWordIcon("presentationml.presentation");
  }

  /** "officedocument" holds "doc", so the Word test claims every Office Open XML type before
      the spreadsheet and presentation tests run. */
  lemma OfficeTypeGetsWordIcon(rest: string)
    requires !Contains(rest, "pdf")
    ensures GetFileIcon(OfficePrefix + rest) == WordIcon
  {
    var vendor, office, document := "application/vnd.", "openxmlformats-office", "document.";
    OfficePrefixLacksPdf();
    NoStraddle(OfficePrefix, rest, "pdf");
    assert OccursAt(document, "doc", 0);
    ContainsWithin(vendor + office, document, rest, "doc", 0);
  }

  lemma OfficePrefixLacksPdf()
    ensures !Contains(OfficePrefix, "pdf") && OfficePrefix[|OfficePrefix| - 1] == '.'
  {
    var vendor, office, document := "application/vnd.", "openxmlformats-office", "document.";
    MissingChar(vendor, "pdf", 'f');
    MissingChar(office, "pdf", 'd');
    MissingChar(document, "pdf", 'p');
    NoStraddle(vendor, office, "pdf");
    NoStraddle(vendor + office, document, "pdf");
  }

  /** Two strings without `sub` do not contain it joined, when the first ends in a character
      that could not start a match across the seam. */
  lemma NoStraddle(a: string, b: string, sub: string)
    requires !Contains(a, sub) && !Contains(b, sub)
    requires a != [] && sub != [] && a[|a| - 1] !in sub[..|sub| - 1]
    ensures !Contains(a + b, sub)
  {
    var s := a + b;
    forall i | 0 <= i <= |s| - |sub| ensures !OccursAt(s, sub, i) {
      if i + |sub| <= |a| {
        assert s[i..i + |sub|] == a[i..i + |sub|];
        assert !OccursAt(a, sub, i);
      } else if i >= |a| {
        assert s[i..i + |sub|] == b[i - |a|..i - |a| + |sub|];
        assert !OccursAt(b, sub, i - |a|);
      } else {
        var k := |a| - 1 - i;
        assert sub[..|sub| - 1][k] == sub[k];
        assert s[i..i + |sub|][k] == a[|a| - 1];
      }
    }
  }

  /** An occurrence in the middle piece is an occurrence in the whole. */
  lemma ContainsWithin(a: string, b: string, c: string, sub: string, i: int)
    requires OccursAt(b, sub, i)
    ensures Contains(a + b + c, sub)
  {
    var s := a + b + c;
    assert s[|a| + i..|a| + i + |sub|] == b[i..i + |sub|];
    assert OccursAt(s, sub, |a| + i);
  }

  /** `file.type.startsWith('image/')`. */
  predicate IsImage(file: FileData) {
    StartsWith(file.fileType, "image/")
  }

  /** How an attachment is shown: inline for an image, as an icon with a download link for
      anything else. */
  datatype Attachment = ImageView(url: string) | DocumentView(icon: FileIcon, name: string, url: string)

  function RenderAttachment(file: FileData): (a: Attachment)
    ensures a.ImageView? <==> IsImage(file)
    ensures a.url == file.url
    ensures a.DocumentView? ==> a.icon == GetFileIcon(file.fileType) && a.name == file.name
  {
    if IsImage(file) then ImageView(file.url) else DocumentView(GetFileIcon(file.fileType), file.name, file.url)
  }

  /** The decisions of one bubble. */
  datatype Bubble = Bubble(rightAligned: bool, avatarAfter: bool, senderName: Option<string>,
                           attachment: Option<Attachment>, text: Option<string>)

  /** A file message shows its attachment (`message.file!`: the file is required), a text
      message its content. The bubble sits on the right, with the avatar after it, iff the
      message is the viewer's own; the sender's name is shown only on others' messages in
      the public chat. */
  function Render(message: UiMessage, isOwn: bool, isPrivate: bool): (b: Bubble)
    requires message.kind == File ==> message.file.Some?
    ensures b.attachment.Some? <==> message.kind == File
    ensures b.text.Some? <==> message.kind == Text
    ensures b.attachment.Some? ==> b.attachment.value == RenderAttachment(message.file.value)
    ensures b.text.Some? ==> b.text.value == message.content
    ensures b.rightAligned <==> isOwn
    ensures b.avatarAfter <==> isOwn
    ensures b.senderName.Some? <==> !isOwn && !isPrivate
    ensures b.senderName.Some? ==> b.senderName.value == message.sender.username
  {
    var name := if !isOwn && !isPrivate then Some(message.sender.username) else None;
    if message.kind == File then Bubble(isOwn, isOwn, name, Some(RenderAttachment(message.file.value)), None)
    else Bubble(isOwn, isOwn, name, None, Some(message.content))
  }
}
