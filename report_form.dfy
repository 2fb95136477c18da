/**
 * The report form on the client: the report-type options with their urgent
 * flags, the validation before sending, and the state `handleSubmit` leaves.
 */
module ReportForm {
  import opened Wrappers
  import opened Store
  import Text
  import ReportHandler
  import ReportsRoute
  import Http

  datatype ReportTypeOption = ReportTypeOption(value: ReportType, caption: string, urgent: bool)

  /** `reportTypes`: the choices of the select box, in order. */
  const ReportTypeOptions: seq<ReportTypeOption> := [
    ReportTypeOption(SafetyConcern, "🚨 Safety Concern", true),
    ReportTypeOption(Harassment, "⚠️ Harassment", true),
    ReportTypeOption(InappropriateBehavior, "❌ Inappropriate Behavior", false),
    ReportTypeOption(PaymentDispute, "💰 Payment Dispute", false),
    ReportTypeOption(NoShow, "👻 No Show", false),
    ReportTypeOption(Other, "📝 Other", false)
  ]

  const InvalidInput: string := "Please select a report type and provide a description"
  const SubmitFailed: string := "Failed to submit report"

  const UrgentText: string :=
    "🚨 Your report has been submitted and flagged as urgent. "
    + "Our team has been notified immediately and will take appropriate action. "
    + "If you are in immediate danger, please contact local emergency services."

  const SubmittedText: string :=
    "✅ Your report has been submitted successfully. "
    + "Our team will review it and take appropriate action. "
    + "Report ID: "

  /** `reportTypes.find((rt) => rt.value === type)`. */
  function FindOption(options: seq<ReportTypeOption>, kind: ReportType): (r: Option<ReportTypeOption>)
    ensures r.Some? ==> r.value in options && r.value.value == kind
    ensures r.None? ==> forall o | o in options :: o.value != kind
  {
    if options == [] then None
    else if options[0].value == kind then Some(options[0])
    else FindOption(options[1..], kind)
  }

  /**
   * `selectedType?.urgent`: whether the form warns that the report will be
   * escalated. It is shown for exactly the types the engine escalates.
   */
  function ShowsUrgentWarning(kind: Option<ReportType>): (urgent: bool)
    ensures urgent <==> kind.Some? && ReportHandler.Escalates(kind.value)
  {
    match kind
    case None => false
    case Some(k) =>
      var found := FindOption(ReportTypeOptions, k);
      assert found.Some? by {
        assert ReportTypeOptions[0].value == SafetyConcern && ReportTypeOptions[1].value == Harassment;
        assert ReportTypeOptions[2].value == InappropriateBehavior && ReportTypeOptions[3].value == PaymentDispute;
        assert ReportTypeOptions[4].value == NoShow && ReportTypeOptions[5].value == Other;
      }
      found.value.urgent
  }

  /** The validation before any request: a chosen type and a description that is not blank. */
  predicate CanSubmit(kind: Option<ReportType>, description: string) {
    kind.Some? && Text.Trim(description) != ""
  }

  /** The alert after a successful submission. */
  datatype Alert = UrgentAlert | SubmittedAlert(reportId: string) {
    /** The text shown. */
    function Message(): string {
      match this
      case UrgentAlert => UrgentText
      case SubmittedAlert(id) => SubmittedText + id
    }
  }

  /** The alert chosen by the severity the server reports. */
  function SuccessAlert(immediateAction: bool, reportId: string): (a: Alert)
    ensures a.UrgentAlert? <==> immediateAction
    ensures !immediateAction ==> Text.EndsWith(a.Message(), reportId)
    ensures !immediateAction ==> a.Message() == SubmittedText + reportId
  {
    if immediateAction then UrgentAlert else SubmittedAlert(reportId)
  }

  /** The report ID is part of the alert only when no immediate action was taken. */
  lemma AlertMentionsIdOnlyWhenNotUrgent(a: string, b: string)
    ensures SuccessAlert(true, a).Message() == SuccessAlert(true, b).Message()
    ensures a != b ==> SuccessAlert(false, a).Message() != SuccessAlert(false, b).Message()
  {
  }

  /** The server's answer to the form's request. */
  datatype SubmitReply =
    | Accepted(reportId: string, immediateAction: bool)
    | Rejected(error: Option<string>)
    | Unreachable(message: string)

  /** The message the form shows for a failed request. */
  function FailureText(reply: SubmitReply): string
    requires !reply.Accepted?
  {
    match reply
    case Rejected(e) => Http.ErrorOr(e, SubmitFailed)
    case Unreachable(m) => m
  }

  /** The body the form posts: the description is sent trimmed. */
  function RequestFor(kind: ReportType, reportedUserId: Id, reportedBy: Id, description: string): ReportsRoute.ReportBody {
    ReportsRoute.ReportBody(Some(ReportTypeName(kind)), Some(reportedUserId), Some(reportedBy), Some(Text.Trim(description)))
  }

  /**
   * Whatever passes the form's check also passes the route's guards, given
   * the two ids, and reaches the engine with the trimmed description.
   */
  lemma FormRequestPassesRoute(kind: ReportType, reportedUserId: Id, reportedBy: Id, description: string)
    requires CanSubmit(Some(kind), description) && reportedUserId != "" && reportedBy != ""
    ensures ReportsRoute.Validate(RequestFor(kind, reportedUserId, reportedBy, description))
         == Success(ReportHandler.ReportData(kind, reportedUserId, reportedBy, Text.Trim(description)))
  {
    ReportsRoute.ParseReportTypeName(kind);
  }

  /** The values of the form's `useState` hooks. */
  datatype FormView = FormView(kind: Option<ReportType>, description: string, loading: bool, error: string, success: bool)

  /**
   * `handleSubmit` on the form's values `v`: the values afterwards, the
   * request body posted (if any) and the alert shown; `reply` is the
   * server's answer to that request.
   */
  function Submitted(v: FormView, reportedUserId: Id, reportedBy: Id, reply: SubmitReply)
    : (r: (FormView, Option<ReportsRoute.ReportBody>, Option<Alert>))
    // a request is sent exactly when the form's check passes
    ensures r.1.Some? <==> CanSubmit(v.kind, v.description)
    // otherwise only the validation message changes
    ensures !CanSubmit(v.kind, v.description) ==>
      r.0 == v.(error := InvalidInput, success := false) && r.2 == None
    // the request carries the chosen type, the two ids and the trimmed description
    ensures r.1.Some? ==> r.1.value == RequestFor(v.kind.value, reportedUserId, reportedBy, v.description) && !r.0.loading
    // acceptance clears the form and shows the alert for the severity the server reports
    ensures r.1.Some? && reply.Accepted? ==>
      && r.0 == FormView(None, "", false, "", true)
      && r.2 == Some(SuccessAlert(reply.immediateAction, reply.reportId))
    // a failure keeps what was typed and shows the server's message
    ensures r.1.Some? && !reply.Accepted? ==>
      r.0 == v.(loading := false, error := FailureText(reply), success := false) && r.2 == None
  {
    if !CanSubmit(v.kind, v.description) then
      (v.(error := InvalidInput, success := false), None, None)
    else
      var sent := Some(RequestFor(v.kind.value, reportedUserId, reportedBy, v.description));
      if reply.Accepted? then
        (FormView(None, "", false, "", true), sent, Some(SuccessAlert(reply.immediateAction, reply.reportId)))
      else
        (v.(loading := false, error := FailureText(reply), success := false), sent, None)
  }

  /** The form's state (`useState` hooks) and `handleSubmit`. */
  class ReportFormState {
    var kind: Option<ReportType>
    var description: string
    var loading: bool
    var error: string
    var success: bool

    function View(): FormView
      reads this
    {
      FormView(kind, description, loading, error, success)
    }

    constructor ()
      ensures View() == FormView(None, "", false, "", false)
    {
      kind, description, loading, error, success := None, "", false, "", false;
    }

    /** The select box's `onChange`; choosing the placeholder gives `None`. */
    method ChooseType(k: Option<ReportType>)
      modifies this
      ensures View() == old(View()).(kind := k)
    {
      kind := k;
    }

    /** The text area's `onChange`. */
    method EditDescription(text: string)
      modifies this
      ensures View() == old(View()).(description := text)
    {
      description := text;
    }

    /** `handleSubmit`, step by step. */
    method Submit(reportedUserId: Id, reportedBy: Id, reply: SubmitReply) returns (sent: Option<ReportsRoute.ReportBody>, alert: Option<Alert>)
      modifies this
      ensures (View(), sent, alert) == Submitted(old(View()), reportedUserId, reportedBy, reply)
    {
      var k, d := kind, description;
      if !CanSubmit(k, d) {
        error, success := InvalidInput, false;
        return None, None;
      }
      loading := true;
      var body := RequestFor(k.value, reportedUserId, reportedBy, d);
      sent := Some(body);
      if reply.Accepted? {
        alert := Some(if reply.immediateAction then UrgentAlert else SubmittedAlert(reply.reportId));
        kind, description, error, success := None, "", "", true;
      } else {
        alert := None;
        error, success := FailureText(reply), false;
      }
      loading := false;
    }
  }
}
