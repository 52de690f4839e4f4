/** Upload configuration: PDF-only filter, 10 MiB limit, and the stored file name
    `<timestamp>-<uuid>-<originalname>`. The clock and `randomUUID` are inputs. */
module MulterConfig {
  import opened JsText
  import opened Outcomes
  import opened ErrorHandler

  /** `limits.fileSize` */
  const MaxFileSize := 10 * 1024 * 1024

  const PdfMimetype := "application/pdf"

  /** What `fileFilter` passes to its callback: `cb(null, true)` or `cb(error)`. */
  datatype FilterDecision = Accept | Reject(err: ErrValue)

  /** `fileFilter(req, file, cb)`: anything but exactly `application/pdf` is refused with
      `new Error('Only PDF files are allowed')`. */
  function FileFilter(mimetype: string): (d: FilterDecision)
    ensures d.Accept? <==> mimetype == PdfMimetype
    ensures d.Reject? ==> IsPdfRejection(d.err) && !d.err.Multer?
  {
    if mimetype != PdfMimetype then
      var e := Other(true, PdfOnlyText, None, None);
      assert OccursAt(e.message, PdfOnlyText, 0);
      Reject(e)
    else Accept
  }

  /** A refused upload reaches the client as 400 with the filter's own message. */
  lemma FilterRejectionIs400(mimetype: string)
    requires mimetype != PdfMimetype
    ensures HandleError(FileFilter(mimetype).err) == Reply(400, PdfOnlyText, NoDetails)
  {
  }

  /** The error multer passes on for one uploaded file of `size` bytes. It calls
      `fileFilter` first and watches the size against `limits.fileSize` only for a file the
      filter accepted, so a refused type wins over the size: the filter's error, then its
      `LIMIT_FILE_SIZE` error ("File too large") for a PDF over the limit, otherwise none. */
  function UploadError(mimetype: string, size: nat): (err: Option<ErrValue>)
    ensures err.None? <==> mimetype == PdfMimetype && size <= MaxFileSize
    ensures mimetype != PdfMimetype ==> err == Some(FileFilter(mimetype).err)
    ensures mimetype == PdfMimetype && size > MaxFileSize ==>
      err.Some? && err.value.Multer? && err.value.code == "LIMIT_FILE_SIZE"
  {
    match FileFilter(mimetype)
    case Reject(e) => Some(e)
    case Accept => if size > MaxFileSize then Some(Multer("LIMIT_FILE_SIZE", "File too large")) else None
  }

  /** What the client receives for a refused upload: 413 exactly for a PDF over 10 MiB,
      and 400 with the PDF-only text for any other type, whatever its size. */
  lemma UploadRefusalStatus(mimetype: string, size: nat)
    requires UploadError(mimetype, size).Some?
    ensures HandleError(UploadError(mimetype, size).value).status == 413
            <==> mimetype == PdfMimetype && size > MaxFileSize
    ensures mimetype == PdfMimetype ==>
      HandleError(UploadError(mimetype, size).value) == Reply(413, FileTooLargeMessage, NoDetails)
    ensures mimetype != PdfMimetype ==>
      HandleError(UploadError(mimetype, size).value) == Reply(400, PdfOnlyText, NoDetails)
  {
    if mimetype == PdfMimetype {
      SizeLimitIs413("File too large");
    } else {
      FilterRejectionIs400(mimetype);
    }
  }

  /** multer's error for a file over the limit becomes 413 whatever message it carries. */
  lemma SizeLimitIs413(message: string)
    ensures HandleError(Multer("LIMIT_FILE_SIZE", message)) == Reply(413, FileTooLargeMessage, NoDetails)
  {
  }

  /** `` `${Date.now()}-${randomUUID()}` + '-' + file.originalname `` */
  function StoredFilename(now: nat, uuid: string, originalname: string): (name: string)
    ensures |name| > |originalname|
    ensures name[|name| - |originalname| - 1..] == "-" + originalname
    ensures TakeUntil(name, '-') == Decimal(now)
  {
    var stamp := Decimal(now);
    var name := stamp + "-" + uuid + "-" + originalname;
    assert name[|name| - |originalname| - 1..] == "-" + originalname;
    TakeUntilAtFirstSeparator(stamp, '-', uuid + "-" + originalname);
    assert name == stamp + ['-'] + (uuid + "-" + originalname);
    name
  }

  lemma {:induction false} TakeUntilAtFirstSeparator(a: string, sep: char, b: string)
    requires Excludes(a, sep)
    ensures TakeUntil(a + [sep] + b, sep) == a
  {
    if a != [] {
      assert (a + [sep] + b)[1..] == a[1..] + [sep] + b;
      TakeUntilAtFirstSeparator(a[1..], sep, b);
    }
  }

  /** Uploads made at different milliseconds are stored under different names, whatever
      the UUIDs and original names are. */
  lemma DistinctInstantsDistinctNames(t1: nat, u1: string, n1: string, t2: nat, u2: string, n2: string)
    requires t1 != t2
    ensures StoredFilename(t1, u1, n1) != StoredFilename(t2, u2, n2)
  {
    if StoredFilename(t1, u1, n1) == StoredFilename(t2, u2, n2) {
      DecimalInjective(t1, t2);
    }
  }
}
