// The drag-and-drop upload zone of the journal editor
// (components/features/journal/editor/file-upload-zone.tsx). The
// `onFileUpload` callback is modelled by the log of files handed to it.

module UploadZone {
  import opened Opt
  import opened Strings

  /** A dropped or selected file: its name, MIME type and size in bytes. */
  datatype ZoneFile = ZoneFile(name: string, mimeType: string, size: nat)

  datatype Check = Accepted | Rejected(message: string)

  const DefaultAcceptedTypes: seq<string> := ["image/jpeg", "image/png", "image/gif", "image/webp"]
  const DefaultMaxSizeMB: nat := 10

  const BytesPerMB: nat := 1024 * 1024

  /** The message for an unsupported type, listing the accepted ones. */
  function TypeMessage(acceptedTypes: seq<string>): string
  {
    "File type not supported. Please upload " + Join(acceptedTypes, ", ")
  }

  /** The message for a file above the limit. */
  function SizeMessage(maxSizeMB: nat): string
  {
    "File too large. Maximum size is " + NatToString(maxSizeMB) + "MB"
  }

  /** The two checks of `validateAndUploadFile`: the type first, then the
      size against `maxSizeMB`·1024·1024 bytes. */
  function Validate(file: ZoneFile, acceptedTypes: seq<string>, maxSizeMB: nat): (r: Check)
    ensures r.Accepted? <==> file.mimeType in acceptedTypes && file.size <= maxSizeMB * BytesPerMB
    ensures file.mimeType !in acceptedTypes ==> r == Rejected(TypeMessage(acceptedTypes))
    ensures file.mimeType in acceptedTypes && file.size > maxSizeMB * BytesPerMB ==>
              r == Rejected(SizeMessage(maxSizeMB))
  {
    if file.mimeType !in acceptedTypes then Rejected(TypeMessage(acceptedTypes))
    else if file.size > maxSizeMB * BytesPerMB then Rejected(SizeMessage(maxSizeMB))
    else Accepted
  }

  /** A file of the wrong type that is also too large is reported for its
      type, and the two messages are never the same. */
  lemma TypeCheckedFirst(file: ZoneFile, acceptedTypes: seq<string>, maxSizeMB: nat)
    requires file.mimeType !in acceptedTypes && file.size > maxSizeMB * BytesPerMB
    ensures Validate(file, acceptedTypes, maxSizeMB) == Rejected(TypeMessage(acceptedTypes))
    ensures TypeMessage(acceptedTypes) != SizeMessage(maxSizeMB)
  {
    var t := TypeMessage(acceptedTypes);
    var s := SizeMessage(maxSizeMB);
    assert t[6] == 'y';
    assert s[6] == 'o';
  }

  /** With the defaults, an image of exactly 10 MiB is accepted and one
      byte more is not. */
  lemma DefaultLimitInclusive(name: string, mimeType: string)
    requires mimeType in DefaultAcceptedTypes
    ensures Validate(ZoneFile(name, mimeType, 10 * BytesPerMB), DefaultAcceptedTypes, DefaultMaxSizeMB).Accepted?
    ensures Validate(ZoneFile(name, mimeType, 10 * BytesPerMB + 1), DefaultAcceptedTypes, DefaultMaxSizeMB)
              == Rejected(SizeMessage(DefaultMaxSizeMB))
  {
  }

  class FileUploadZone {
    const acceptedTypes: seq<string>
    const maxSizeMB: nat
    var isHovering: bool
    var error: Option<string>
    /** The files handed to `onFileUpload`, in order. */
    var uploads: seq<ZoneFile>
    /** The value of the hidden file input. */
    var inputValue: string

    constructor (acceptedTypes: Option<seq<string>>, maxSizeMB: Option<nat>)
      ensures this.acceptedTypes == acceptedTypes.GetOr(DefaultAcceptedTypes)
      ensures this.maxSizeMB == maxSizeMB.GetOr(DefaultMaxSizeMB)
      ensures !isHovering && error == None && uploads == [] && inputValue == ""
    {
      this.acceptedTypes := acceptedTypes.GetOr(DefaultAcceptedTypes);
      this.maxSizeMB := maxSizeMB.GetOr(DefaultMaxSizeMB);
      isHovering := false;
      error := None;
      uploads := [];
      inputValue := "";
    }

    method DragOver()
      modifies this
      ensures isHovering
      ensures error == old(error) && uploads == old(uploads) && inputValue == old(inputValue)
    {
      isHovering := true;
    }

    method DragLeave()
      modifies this
      ensures !isHovering
      ensures error == old(error) && uploads == old(uploads) && inputValue == old(inputValue)
    {
      isHovering := false;
    }

    /** `validateAndUploadFile`: an accepted file is handed on, a rejected
        one sets the error. */
    method ValidateAndUpload(file: ZoneFile)
      modifies this
      ensures Validate(file, acceptedTypes, maxSizeMB).Accepted? ==>
                uploads == old(uploads) + [file] && error == old(error)
      ensures Validate(file, acceptedTypes, maxSizeMB).Rejected? ==>
                uploads == old(uploads) && error == Some(Validate(file, acceptedTypes, maxSizeMB).message)
      ensures isHovering == old(isHovering) && inputValue == old(inputValue)
    {
      if file.mimeType !in acceptedTypes {
        error := Some(TypeMessage(acceptedTypes));
        return;
      }
      if file.size > maxSizeMB * BytesPerMB {
        error := Some(SizeMessage(maxSizeMB));
        return;
      }
      uploads := uploads + [file];
    }

    /** `handleDrop`: hovering ends and the error is cleared; only the
        first dropped file is validated, and an empty drop does nothing
        more. */
    method Drop(files: seq<ZoneFile>)
      modifies this
      ensures !isHovering && inputValue == old(inputValue)
      ensures files == [] ==> error == None && uploads == old(uploads)
      ensures files != [] && Validate(files[0], acceptedTypes, maxSizeMB).Accepted? ==>
                error == None && uploads == old(uploads) + [files[0]]
      ensures files != [] && Validate(files[0], acceptedTypes, maxSizeMB).Rejected? ==>
                error == Some(Validate(files[0], acceptedTypes, maxSizeMB).message) && uploads == old(uploads)
    {
      isHovering := false;
      error := None;
      if |files| == 0 {
        return;
      }
      ValidateAndUpload(files[0]);
    }

    /** `handleFileSelect`: the error is cleared; with no selection nothing
        more happens, otherwise the first file is validated and the input
        is reset so the same file can be chosen again. */
    method FileSelect(files: Option<seq<ZoneFile>>)
      modifies this
      ensures isHovering == old(isHovering)
      ensures (files.None? || files.value == []) ==>
                error == None && uploads == old(uploads) && inputValue == old(inputValue)
      ensures files.Some? && files.value != [] ==> inputValue == ""
      ensures files.Some? && files.value != [] && Validate(files.value[0], acceptedTypes, maxSizeMB).Accepted? ==>
                error == None && uploads == old(uploads) + [files.value[0]]
      ensures files.Some? && files.value != [] && Validate(files.value[0], acceptedTypes, maxSizeMB).Rejected? ==>
                error == Some(Validate(files.value[0], acceptedTypes, maxSizeMB).message) && uploads == old(uploads)
    {
      error := None;
      if files.None? || |files.value| == 0 {
        return;
      }
      ValidateAndUpload(files.value[0]);
      inputValue := "";
    }
  }
}
