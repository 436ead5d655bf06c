/**
 * Reading the checkpoint: the `.lastdone` file holding the link of the last
 * photo handled (index.js:20-28). A missing or unreadable file is `None`.
 * Writing it is `Traversal.Backup.SaveProgress`.
 */
module Progress {
  import opened Wrappers

  /** A JavaScript Error object, reduced to its message. */
  datatype JsError = JsError(message: string)

  /** `String(e)` for an Error e: its name, a colon and a space, then its message. */
  function ErrorString(e: JsError): string {
    "Error: " + e.message
  }

  /** `new Error(e)` for an Error e: the argument is converted to a string, which becomes the message. */
  function Rethrow(e: JsError): JsError {
    JsError(ErrorString(e))
  }

  datatype ProgressError =
    | Unreadable               // readFile threw (the file is missing or cannot be read)
    | Empty(thrown: JsError)   // the file exists but holds nothing; the error getProgress rethrows

  const EmptyMessage: string := "Please add the starting link in .lastdone file"

  /**
   * getProgress: the file's content verbatim, or an error when it cannot be
   * read or is empty. The error thrown for an empty file is caught by the
   * function's own catch block and wrapped once more.
   */
  function GetProgress(file: Option<string>): (r: Result<string, ProgressError>)
    ensures r.Success? <==> file.Some? && file.value != ""
    ensures r.Success? ==> file == Some(r.value)
    ensures (r.Failure? && r.error.Empty?) <==> file == Some("")
    ensures r.Failure? && r.error.Empty? ==>
              r.error.thrown.message == "Error: " + EmptyMessage
    ensures r == Failure(Unreadable) <==> file.None?
  {
    match file
    case None => Failure(Unreadable)
    case Some(content) =>
      if content == "" then Failure(Empty(Rethrow(JsError(EmptyMessage)))) else Success(content)
  }
}
