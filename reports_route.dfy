/**
 * `POST /api/reports`: the guard chain in front of the escalation engine and
 * the mapping of its result to a status code and JSON body.
 */
module ReportsRoute {
  import opened Wrappers
  import opened Store
  import opened Http
  import ReportHandler

  /** The parsed JSON body; an absent or `null` member is `None`. */
  datatype ReportBody = ReportBody(
    kind: Option<string>,
    reportedUserId: Option<string>,
    reportedBy: Option<string>,
    description: Option<string>)

  const MissingFields: string := "Missing required fields"
  const InvalidType: string := "Invalid report type"
  const SubmitFailed: string := "Failed to submit report"
  const InternalError: string := "Internal server error"

  /** JavaScript truthiness of a string member: present and not empty. */
  predicate Given(field: Option<string>) {
    field.Some? && field.value != ""
  }

  /** `Object.values(ReportType)`, in declaration order. */
  const ReportTypeValues: seq<ReportType> := [SafetyConcern, Harassment, InappropriateBehavior, PaymentDispute, NoShow, Other]

  lemma AllTypesListed()
    ensures forall k :: k in ReportTypeValues
  {
    forall k: ReportType ensures k in ReportTypeValues {
      match k
      case SafetyConcern => assert ReportTypeValues[0] == k;
      case Harassment => assert ReportTypeValues[1] == k;
      case InappropriateBehavior => assert ReportTypeValues[2] == k;
      case PaymentDispute => assert ReportTypeValues[3] == k;
      case NoShow => assert ReportTypeValues[4] == k;
      case Other => assert ReportTypeValues[5] == k;
    }
  }

  function FindType(values: seq<ReportType>, s: string): (r: Option<ReportType>)
    ensures r.Some? ==> r.value in values && ReportTypeName(r.value) == s
    ensures r.None? ==> forall k | k in values :: ReportTypeName(k) != s
  {
    if values == [] then None
    else if ReportTypeName(values[0]) == s then Some(values[0])
    else FindType(values[1..], s)
  }

  /** `Object.values(ReportType).includes(s)`, returning the value found. */
  function ParseReportType(s: string): (r: Option<ReportType>)
    ensures r.Some? <==> exists k :: ReportTypeName(k) == s
    ensures r.Some? ==> ReportTypeName(r.value) == s
  {
    AllTypesListed();
    FindType(ReportTypeValues, s)
  }

  /** Every enum value is accepted under its own name, and under no other. */
  lemma ParseReportTypeName(k: ReportType)
    ensures ParseReportType(ReportTypeName(k)) == Some(k)
  {
    var r := ParseReportType(ReportTypeName(k));
    assert ReportTypeName(r.value) == ReportTypeName(k);
  }

  /**
   * The guards of the route: missing members first, then the enum check.
   * On success the engine gets the body's members unchanged.
   */
  function Validate(body: ReportBody): (r: Result<ReportHandler.ReportData, Response>)
    ensures r == Failure(Error(400, MissingFields)) <==>
      !(Given(body.kind) && Given(body.reportedUserId) && Given(body.reportedBy) && Given(body.description))
    ensures r == Failure(Error(400, InvalidType)) <==>
      Given(body.kind) && Given(body.reportedUserId) && Given(body.reportedBy) && Given(body.description)
      && ParseReportType(body.kind.value).None?
    // a complete body with a known type is accepted, with that type
    ensures r.Success? <==>
      Given(body.kind) && Given(body.reportedUserId) && Given(body.reportedBy) && Given(body.description)
      && ParseReportType(body.kind.value).Some?
    ensures r.Success? ==>
      && body.kind == Some(ReportTypeName(r.value.kind))
      && body.reportedUserId == Some(r.value.reportedUserId)
      && body.reportedBy == Some(r.value.reportedBy)
      && body.description == Some(r.value.description)
  {
    if !(Given(body.kind) && Given(body.reportedUserId) && Given(body.reportedBy) && Given(body.description)) then
      Failure(Error(400, MissingFields))
    else match ParseReportType(body.kind.value)
      case None => Failure(Error(400, InvalidType))
      case Some(k) => Success(ReportHandler.ReportData(k, body.reportedUserId.value, body.reportedBy.value, body.description.value))
  }

  /** The response for the engine's result: 500 with its error text, or 201 with its fields. */
  function Respond(result: ReportHandler.HandleResult): (r: Response)
    ensures r.status == 201 <==> result.Handled?
    ensures result.Handled? ==> r.body == ReportAccepted(result.reportId, result.message, result.immediateAction)
    ensures result.Failed? ==> r == Error(500, if result.error == "" then SubmitFailed else result.error)
  {
    match result
    case Handled(id, message, immediate) => Response(201, ReportAccepted(id, message, immediate))
    case Failed(e) => Error(500, if e == "" then SubmitFailed else e)
  }

  /**
   * The route on the tables `t`; `request` is `None` when the body is not
   * valid JSON. A request the guards refuse changes nothing.
   */
  function Route(t: Tables, request: Option<ReportBody>, now: int, newId: Id): (r: (Tables, Response))
    ensures r.1.status in {201, 400, 500}
    ensures r.1.status != 201 && r.0 != t ==> r.1 == Error(500, ReportHandler.FailureMessage)
    ensures request.None? ==> r == (t, Error(500, InternalError))
    ensures request.Some? && Validate(request.value).Failure? ==> r == (t, Validate(request.value).error) && r.1.status == 400
    // an accepted body reaches the engine, and its result decides the response
    ensures request.Some? && Validate(request.value).Success? ==>
      var handled := ReportHandler.Handle(t, Validate(request.value).value, now, newId);
      r == (handled.0, Respond(handled.1))
    ensures r.1.status == 201 ==>
      && request.Some? && Validate(request.value).Success?
      && r.1.body.ReportAccepted? && r.1.body.reportId == newId && newId in r.0.reports && newId !in t.reports
      && r.1.body.immediateAction == ReportHandler.Escalates(Validate(request.value).value.kind)
  {
    match request
    case None => (t, Error(500, InternalError))
    case Some(body) =>
      match Validate(body)
      case Failure(resp) => (t, resp)
      case Success(data) =>
        var handled := ReportHandler.Handle(t, data, now, newId);
        (handled.0, Respond(handled.1))
  }

  /** `POST`: the guards, then the engine on the database. */
  method Post(db: Db, request: Option<ReportBody>, now: int, newId: Id) returns (response: Response)
    requires db.Valid()
    modifies db
    ensures db.Valid()
    ensures (db.State(), response) == Route(old(db.State()), request, now, newId)
  {
    if request.None? {
      return Error(500, InternalError);
    }
    var checked := Validate(request.value);
    if checked.Failure? {
      return checked.error;
    }
    var result := ReportHandler.HandleReport(db, checked.value, now, newId);
    response := Respond(result);
  }
}
