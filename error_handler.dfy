/** The server's last-resort error middleware: the value an operation threw is sorted by
    the first test it passes, and exactly one JSON answer is written for it. */
module ErrorHandler {
  import opened JsText
  import opened Outcomes

  /** What reached the handler.
      `Multer` and `Validation` are `Error` subclasses with their own fields; `Other`
      is anything else: an `Error` (`isError`) with its message, or any other value, with
      its `error` property when that is a string and its `details` property (`None` for
      `null` or absent). */
  datatype ErrValue =
    | Multer(code: string, message: string)
    | Validation(message: string, errors: seq<string>)
    | Other(isError: bool, message: string, errorProp: Option<string>, details: Option<string>)
  {
    predicate IsError() { !Other? || isError }
  }

  /** The `details` member of the answer: absent, a list of validation errors, or a value
      that may be `null`. */
  datatype ReplyDetails = NoDetails | ErrorList(items: seq<string>) | DetailValue(value: Option<string>)

  /** `res.status(status).json({ error, details? })` */
  datatype Reply = Reply(status: int, error: string, details: ReplyDetails)

  const PdfOnlyText := "Only PDF files are allowed"
  const FileTooLargeMessage := "File must be under 10MB."
  const ValidationMessage := "Database validation error"
  const InternalMessage := "Internal server error"

  /** `err instanceof Error && err.message.includes('Only PDF files are allowed')` */
  predicate IsPdfRejection(err: ErrValue) {
    err.IsError() && Includes(err.message, PdfOnlyText)
  }

  /** `err?.error && typeof err.error === 'string'`: a non-empty string. */
  predicate HasErrorText(err: ErrValue) {
    err.Other? && err.errorProp.Some? && err.errorProp.value != ""
  }

  /** `errorHandler(err, req, res, next)`: the answer for each kind of value, tested in
      the source's order so that an earlier test shadows every later one. */
  function HandleError(err: ErrValue): (r: Reply)
    ensures r.status == 413 <==> err.Multer? && err.code == "LIMIT_FILE_SIZE"
    ensures r.status == 413 ==> r == Reply(413, FileTooLargeMessage, NoDetails)
    ensures err.Multer? && err.code != "LIMIT_FILE_SIZE" ==> r == Reply(400, err.message, NoDetails)
    ensures !err.Multer? && IsPdfRejection(err) ==> r == Reply(400, err.message, NoDetails)
    ensures err.Validation? && !IsPdfRejection(err) ==> r == Reply(400, ValidationMessage, ErrorList(err.errors))
    ensures r.status == 502 <==> HasErrorText(err) && !IsPdfRejection(err)
    ensures r.status == 502 ==> r == Reply(502, err.errorProp.value, DetailValue(err.details))
    ensures r.status == 500 <==> err.Other? && !IsPdfRejection(err) && !HasErrorText(err)
    ensures r.status == 500 ==> r == Reply(500, InternalMessage, NoDetails)
    ensures r.status in {400, 413, 500, 502}
  {
    if err.Multer? then
      if err.code == "LIMIT_FILE_SIZE" then Reply(413, FileTooLargeMessage, NoDetails)
      else Reply(400, err.message, NoDetails)
    else if IsPdfRejection(err) then Reply(400, err.message, NoDetails)
    else if err.Validation? then Reply(400, ValidationMessage, ErrorList(err.errors))
    else if HasErrorText(err) then Reply(502, err.errorProp.value, DetailValue(err.details))
    else Reply(500, InternalMessage, NoDetails)
  }

  /** Only a client mistake gets 400: a multer error other than the size limit, a
      rejected upload type, or a failed database validation. */
  lemma BadRequestCases(err: ErrValue)
    ensures HandleError(err).status == 400 <==>
      (err.Multer? && err.code != "LIMIT_FILE_SIZE") || (IsPdfRejection(err) && !err.Multer?) || err.Validation?
  {
  }

  /** A value that is not an `Error` and has no string `error` property, including
      `null`, always gets the generic 500 answer. */
  lemma UnknownValuesAre500(err: ErrValue)
    requires err.Other? && !err.isError && (err.errorProp.None? || err.errorProp.value == "")
    ensures HandleError(err) == Reply(500, InternalMessage, NoDetails)
  {
  }
}
