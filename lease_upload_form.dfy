/** The lease upload form's drop handler: which file is considered, which are refused
    before any request, and what the form shows after the upload. The server's answer
    is an input, and the success callback is reported as a result. */
module LeaseUploadForm {
  import opened Outcomes
  import MulterConfig

  /** A dropped file: its name and its `type`. */
  datatype DroppedFile = DroppedFile(name: string, mimetype: string)

  /** The body of the upload answer: `error` on a refusal, the new lease's `id` on success. */
  datatype UploadBody = UploadBody(error: Option<string>, id: Option<int>)

  const NoFileMessage := "No file selected."
  const PdfOnlyMessage := "Only PDF files are allowed."
  const UploadFailedMessage := "Failed to upload file."
  const NetworkErrorMessage := "Network error. Please try again."

  /** The refusal, if any, before a request: no file, or a first file that is not a PDF. */
  function PreCheck(files: seq<DroppedFile>): (refusal: Option<string>)
    ensures files == [] ==> refusal == Some(NoFileMessage)
    ensures files != [] && files[0].mimetype != MulterConfig.PdfMimetype ==> refusal == Some(PdfOnlyMessage)
    ensures refusal.None? <==> files != [] && files[0].mimetype == MulterConfig.PdfMimetype
  {
    if files == [] then Some(NoFileMessage)
    else if files[0].mimetype != MulterConfig.PdfMimetype then Some(PdfOnlyMessage)
    else None
  }

  /** The error shown after an upload ended as `reply`: none on an OK answer, the
      server's `error` or a default on a refusal, and a fixed text when the request or
      the body's parsing threw. */
  function UploadError(reply: Fetched<UploadBody>): (error: Option<string>)
    ensures error.None? <==> reply.Responded? && reply.ok
    ensures reply.Threw? ==> error == Some(NetworkErrorMessage)
    ensures reply.Responded? && !reply.ok ==> error == Some(reply.data.error.GetOr(UploadFailedMessage))
  {
    match reply
    case Threw(_) => Some(NetworkErrorMessage)
    case Responded(ok, data) => if ok then None else Some(data.error.GetOr(UploadFailedMessage))
  }

  /** The client's own check matches the server's upload filter: a file the form lets
      through is one the server's filter accepts, and the reverse. */
  lemma ClientCheckMatchesServerFilter(files: seq<DroppedFile>)
    requires files != []
    ensures PreCheck(files).None? <==> MulterConfig.FileFilter(files[0].mimetype).Accept?
  {
  }

  /** A call of `onUploadSuccess(file, data.id)`. */
  datatype SuccessCall = SuccessCall(file: DroppedFile, leaseId: Option<int>)

  class UploadForm {
    var error: Option<string>
    var uploading: bool

    constructor ()
      ensures error.None? && !uploading
    {
      error, uploading := None, false;
    }

    /** `onDrop(acceptedFiles)`: the error is cleared first; only the first file counts; a
        refused file sends nothing and leaves `uploading` alone; otherwise the file is
        uploaded, the error is set from `UploadError`, the callback (when given) fires
        exactly on an OK answer with the file and the returned id, and `uploading` ends
        false. */
    method OnDrop(files: seq<DroppedFile>, reply: Fetched<UploadBody>, hasCallback: bool)
      returns (uploaded: Option<DroppedFile>, called: Option<SuccessCall>)
      modifies this
      ensures PreCheck(files).Some? ==>
        uploaded.None? && called.None? && error == PreCheck(files) && uploading == old(uploading)
      ensures PreCheck(files).None? ==>
        && uploaded == Some(files[0])
        && error == UploadError(reply)
        && !uploading
        && (called.Some? <==> hasCallback && reply.Responded? && reply.ok)
        && (called.Some? ==> called.value == SuccessCall(files[0], reply.data.id))
    {
      error := None;
      if files == [] {
        error := Some(NoFileMessage);
        return None, None;
      }
      var file := files[0];
      if file.mimetype != MulterConfig.PdfMimetype {
        error := Some(PdfOnlyMessage);
        return None, None;
      }
      uploading := true;
      uploaded, called := Some(file), None;
      match reply {
        case Threw(_) =>
          error := Some(NetworkErrorMessage);
        case Responded(ok, data) =>
          if !ok {
            error := Some(data.error.GetOr(UploadFailedMessage));
          } else if hasCallback {
            called := Some(SuccessCall(file, data.id));
          }
      }
      uploading := false;
    }
  }
}
