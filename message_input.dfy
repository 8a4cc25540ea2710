/** `components/MessageInput.tsx`: the text box and the attachment list under the open chat.

    `URL.createObjectURL` is foreign: the object URLs of the attached files are the parameter
    `urls`, one per file. Whether `onSendMessage` settles or throws is the parameter `ok`. */
module MessageInput {
  import opened Common
  import opened UiTypes

  /** A browser `File` as far as this component reads it. */
  datatype LocalFile = LocalFile(name: string, size: int, fileType: string)

  /** One processed file: name, size and type kept, the object URL added, and the same URL as
      thumbnail for an image. */
  function ProcessFile(f: LocalFile, url: string): (p: ProcessedFile)
    ensures p.name == f.name && p.size == f.size && p.fileType == f.fileType && p.url == url
    ensures p.thumbnail.Some? <==> StartsWith(f.fileType, "image/")
    ensures p.thumbnail.Some? ==> p.thumbnail.value == url
  {
    ProcessedFile(f.name, f.size, f.fileType, url, if StartsWith(f.fileType, "image/") then Some(url) else None)
  }

  /** `files.map(...)`, in order. */
  function ProcessFiles(files: seq<LocalFile>, urls: seq<string>): (r: seq<ProcessedFile>)
    requires |urls| == |files|
    ensures |r| == |files|
    ensures forall i :: 0 <= i < |files| ==> r[i] == ProcessFile(files[i], urls[i])
  {
    seq(|files|, i requires 0 <= i < |files| => ProcessFile(files[i], urls[i]))
  }

  /** `xs.filter((_, i) => i !== index)`. */
  function RemoveAt<T>(xs: seq<T>, index: int): (r: seq<T>)
    ensures 0 <= index < |xs| ==> r == xs[..index] + xs[index + 1..]
    ensures !(0 <= index < |xs|) ==> r == xs
    decreases |xs|
  {
    if xs == [] then []
    else
      var rest := RemoveAt(xs[1..], index - 1);
      var r := (if index == 0 then [] else [xs[0]]) + rest;
      assert 0 < index < |xs| ==> r == xs[..index] + xs[index + 1..] by {
        if 0 < index < |xs| {
          assert xs[..index] == [xs[0]] + xs[1..][..index - 1];
          assert xs[index + 1..] == xs[1..][index..];
        }
      }
      r
  }

  /** `!message.trim() && files.length === 0`: `handleSend` returns at once. */
  predicate NothingToSend(message: string, files: seq<LocalFile>) {
    IsBlank(message, JavaScript) && |files| == 0
  }

  /** The send button's `disabled`. */
  predicate SendDisabled(message: string, files: seq<LocalFile>, isUploading: bool) {
    NothingToSend(message, files) || isUploading
  }

  /** A button that is enabled starts a send, and a blank message with no files keeps it
      disabled. */
  lemma EnabledButtonSends(message: string, files: seq<LocalFile>, isUploading: bool)
    ensures !SendDisabled(message, files, isUploading) ==> !NothingToSend(message, files)
    ensures (AllSpace(message, JavaScript) && files == []) ==> SendDisabled(message, files, isUploading)
  {
    BlankIffAllSpace(message, JavaScript);
  }

  /** What `handleSend` hands to `onSendMessage`. */
  datatype Outgoing = Outgoing(content: string, files: seq<ProcessedFile>)

  /** The composer's state. */
  class Composer {
    var message: string
    var files: seq<LocalFile>
    var isUploading: bool

    constructor ()
      ensures message == "" && files == [] && !isUploading
    {
      message := "";
      files := [];
      isUploading := false;
    }

    /** The textarea's `onChange`. */
    method SetMessage(text: string)
      modifies this`message
      ensures message == text
    {
      message := text;
    }

    /** The drop zone's `onDrop` and the file picker's `onChange`: new files go after the
        ones already attached. */
    method AddFiles(added: seq<LocalFile>)
      modifies this`files
      ensures files == old(files) + added
    {
      files := files + added;
    }

    /** `removeFile(index)`. */
    method RemoveFile(index: int)
      modifies this`files
      ensures files == RemoveAt(old(files), index)
    {
      files := RemoveAt(files, index);
    }

    /** The first half of `handleSend`, up to the call of `onSendMessage`: nothing happens when
        there is nothing to send; otherwise the upload flag goes up and the untrimmed message
        goes out with the processed files. */
    method BeginSend(urls: seq<string>) returns (out: Option<Outgoing>)
      requires |urls| == |files|
      modifies this`isUploading
      ensures NothingToSend(message, files) ==> out.None? && isUploading == old(isUploading)
      ensures !NothingToSend(message, files) ==>
        isUploading && out == Some(Outgoing(message, ProcessFiles(files, urls)))
    {
      if Trim(message, JavaScript) == "" && |files| == 0 {
        return None;
      }
      isUploading := true;
      out := Some(Outgoing(message, ProcessFiles(files, urls)));
    }

    /** The second half: on success the message and the files are cleared; on failure both are
        kept; either way the upload flag comes down. */
    method FinishSend(ok: bool)
      modifies this`message, this`files, this`isUploading
      ensures !isUploading
      ensures ok ==> message == "" && files == []
      ensures !ok ==> message == old(message) && files == old(files)
    {
      if ok {
        message := "";
        files := [];
      }
      isUploading := false;
    }
  }

  /** A whole send that went through leaves an empty, idle composer, whatever was typed or
      attached. */
  method HandleSend(c: Composer, urls: seq<string>, ok: bool) returns (out: Option<Outgoing>)
    requires |urls| == |c.files|
    modifies c
    ensures old(NothingToSend(c.message, c.files)) ==>
      out.None? && c.message == old(c.message) && c.files == old(c.files) && c.isUploading == old(c.isUploading)
    ensures !old(NothingToSend(c.message, c.files)) ==>
      && out == Some(Outgoing(old(c.message), ProcessFiles(old(c.files), urls)))
      && !c.isUploading
      && (ok ==> c.message == "" && c.files == [])
      && (!ok ==> c.message == old(c.message) && c.files == old(c.files))
  {
    out := c.BeginSend(urls);
    if out.Some? {
      c.FinishSend(ok);
    }
  }
}
