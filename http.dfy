/** The JSON responses the API routes return, as status code and body. */
module Http {
  import opened Wrappers

  datatype Body =
    | ErrorBody(error: string)
    | ReportAccepted(reportId: string, message: string, immediateAction: bool)
    | ApplicationAccepted(message: string, studentId: string)
    | SafetyAcknowledged(message: string, acknowledgedAt: int)

  datatype Response = Response(status: int, body: Body)

  /** `NextResponse.json({ error }, { status })`. */
  function Error(status: int, error: string): Response {
    Response(status, ErrorBody(error))
  }

  /** `data.error || fallback`: the message a page shows for a refused request. */
  function ErrorOr(error: Option<string>, fallback: string): (r: string)
    ensures r == fallback || (error == Some(r) && r != "")
    ensures error.Some? && error.value != "" ==> r == error.value
  {
    if error.Some? && error.value != "" then error.value else fallback
  }
}
