/** The upload area (components/UploadArea.tsx): the MIME-type check, the
    construction of the uploaded image once the file has been read and
    decoded, the choice of the first file of a drop or selection, and the
    drag highlight. Reading the file and decoding the image are browser I/O:
    what they produced, if they completed, is an input. */
module UploadArea {
  import opened Types

  /** A file of a drop or a file selection: its name and its `type`. */
  datatype File = File(name: string, fileType: string)

  /** The pixel size of a decoded image. */
  datatype Size = Size(width: nat, height: nat)

  /** What handling one file led to: the invalid-file alert, nothing (the
      read or the decode never completed), or an image handed to the
      wizard. */
  datatype Intake = Alerted | Abandoned | Handed(image: UploadedImage)

  const ImagePrefix: string := "image/"

  /** `s.startsWith(prefix)`: `s` is at least as long as `prefix` and agrees
      with it character by character. */
  function StartsWith(s: string, prefix: string): (b: bool)
    ensures b <==> |prefix| <= |s| && forall k :: 0 <= k < |prefix| ==> s[k] == prefix[k]
  {
    if |prefix| <= |s| then
      assert forall k :: 0 <= k < |prefix| ==> s[..|prefix|][k] == s[k];
      s[..|prefix|] == prefix
    else false
  }

  /** A type is accepted exactly when it is `image/` followed by anything. */
  lemma ImageTypeIff(fileType: string)
    ensures StartsWith(fileType, ImagePrefix) <==> exists rest :: fileType == ImagePrefix + rest
  {
    if StartsWith(fileType, ImagePrefix) {
      assert fileType == ImagePrefix + fileType[|ImagePrefix|..];
    }
  }

  /** `handleFile`, given what the file read produced (`readResult`) and
      the size the decoded image reported (`decoded`); `None` stands for a
      step whose completion callback never ran. */
  function HandleFile(file: Option<File>, readResult: Option<string>, decoded: Option<Size>): (r: Intake)
    ensures r.Alerted? <==> !(file.Some? && StartsWith(file.value.fileType, ImagePrefix))
    ensures r.Handed? <==> file.Some? && StartsWith(file.value.fileType, ImagePrefix) && readResult.Some? && decoded.Some?
    ensures r.Handed? ==>
      r.image == UploadedImage(readResult.value, file.value.fileType, decoded.value.width, decoded.value.height)
    ensures r.Handed? ==> StartsWith(r.image.mimeType, ImagePrefix)
  {
    if file.Some? && StartsWith(file.value.fileType, ImagePrefix) then
      match (readResult, decoded)
      case (Some(dataUrl), Some(size)) => Handed(UploadedImage(dataUrl, file.value.fileType, size.width, size.height))
      case _ => Abandoned
    else Alerted
  }

  /** `files && files[0]`: the first file of a possibly missing list. */
  function FirstFile(files: Option<seq<File>>): (first: Option<File>)
    ensures first.None? <==> files.None? || files.value == []
    ensures first.Some? ==> first.value == files.value[0]
  {
    if files.Some? && |files.value| > 0 then Some(files.value[0]) else None
  }

  /** The upload area's only state, whether a drag is over it. */
  class DropZone {
    var isDragging: bool

    constructor ()
      ensures !isDragging
    {
      isDragging := false;
    }

    method OnDragOver()
      modifies this
      ensures isDragging
    {
      isDragging := true;
    }

    method OnDragLeave()
      modifies this
      ensures !isDragging
    {
      isDragging := false;
    }

    /** A drop ends the drag and handles only the first dropped file; an
        empty drop handles nothing. */
    method OnDrop(files: Option<seq<File>>, readResult: Option<string>, decoded: Option<Size>) returns (handled: Option<Intake>)
      modifies this
      ensures !isDragging
      ensures handled.None? <==> files.None? || files.value == []
      ensures handled.Some? ==> handled.value == HandleFile(Some(files.value[0]), readResult, decoded)
    {
      isDragging := false;
      var first := FirstFile(files);
      if first.Some? {
        handled := Some(HandleFile(first, readResult, decoded));
      } else {
        handled := None;
      }
    }

    /** A file-picker selection handles only the first selected file; an
        empty selection handles nothing. */
    method OnFileSelect(files: Option<seq<File>>, readResult: Option<string>, decoded: Option<Size>) returns (handled: Option<Intake>)
      ensures handled.None? <==> files.None? || files.value == []
      ensures handled.Some? ==> handled.value == HandleFile(Some(files.value[0]), readResult, decoded)
    {
      var first := FirstFile(files);
      if first.Some? {
        handled := Some(HandleFile(first, readResult, decoded));
      } else {
        handled := None;
      }
    }
  }
}
