/**
 * The tourist dashboard page: email, then a six-digit code, then the list
 * of the tourist's requests, with the access token kept in local storage.
 * The server's replies are parameters of the handlers.
 */
module TouristDashboard {
  import opened Wrappers
  import Text
  import opened Sequences
  import opened Http

  /** `s` without its non-digits (`replace(/\D/g, '')`). */
  function DigitsOnly(s: string): (r: string)
    ensures forall i | 0 <= i < |r| :: Text.IsDigit(r[i])
    ensures IsSubsequence(r, s)
    ensures (forall i | 0 <= i < |s| :: Text.IsDigit(s[i])) ==> r == s
  {
    if s == [] then []
    else
      var rest := DigitsOnly(s[1..]);
      if Text.IsDigit(s[0]) then
        var r := [s[0]] + rest;
        assert r[1..] == rest;
        r
      else rest
  }

  /** Removing non-digits piece by piece gives the same digits, in the same order. */
  lemma {:induction false} DigitsOnlyAppend(a: string, b: string)
    ensures DigitsOnly(a + b) == DigitsOnly(a) + DigitsOnly(b)
  {
    if a == [] {
      assert a + b == b;
    } else {
      assert (a + b)[0] == a[0] && (a + b)[1..] == a[1..] + b;
      DigitsOnlyAppend(a[1..], b);
    }
  }

  /** The code field's `onChange`: the first six digits typed, in order. */
  function SanitizeCode(s: string): (r: string)
    ensures |r| <= 6
    ensures forall i | 0 <= i < |r| :: Text.IsDigit(r[i])
    ensures Text.StartsWith(DigitsOnly(s), r)
    ensures |r| == 6 || r == DigitsOnly(s)
  {
    var digits := DigitsOnly(s);
    if |digits| <= 6 then digits else digits[..6]
  }

  /** Sanitising an already sanitised code changes nothing. */
  lemma SanitizeIdempotent(s: string)
    ensures SanitizeCode(SanitizeCode(s)) == SanitizeCode(s)
  {
  }

  const GrayBadge: string := "bg-gray-100 text-gray-800"

  /** `getStatusBadge`: the class of a request's status; any status not in the table gets the gray default. */
  function StatusBadge(status: string): (r: string)
    ensures r == GrayBadge <==> status != "PENDING" && status != "MATCHED" && status != "ACCEPTED" && status != "CANCELLED"
    ensures status == "PENDING" ==> r == "bg-yellow-100 text-yellow-800"
    ensures status == "MATCHED" ==> r == "bg-blue-100 text-blue-800"
    ensures status == "ACCEPTED" ==> r == "bg-green-100 text-green-800"
    ensures status == "CANCELLED" ==> r == "bg-red-100 text-red-800"
  {
    if status == "PENDING" then "bg-yellow-100 text-yellow-800"
    else if status == "MATCHED" then "bg-blue-100 text-blue-800"
    else if status == "ACCEPTED" then "bg-green-100 text-green-800"
    else if status == "EXPIRED" then "bg-gray-100 text-gray-800"
    else if status == "CANCELLED" then "bg-red-100 text-red-800"
    else GrayBadge
  }

  datatype Step = EmailStep | VerifyStep | DashboardStep

  /** The fields of a request the page shows. */
  datatype TouristRequest = TouristRequest(id: string, city: string, status: string)

  /** The answer to `POST /api/tourist/dashboard/access`. */
  datatype SendReply = SendOk | SendRejected(error: Option<string>) | SendUnreachable(message: string)

  /** The answer to `POST /api/tourist/dashboard/verify`. */
  datatype VerifyReply = VerifyOk(token: string) | VerifyRejected(error: Option<string>) | VerifyUnreachable(message: string)

  /** The answer to `GET /api/tourist/dashboard/requests`. */
  datatype FetchReply = Fetched(requests: seq<TouristRequest>) | FetchRejected | FetchUnreachable(message: string)

  const SendFailed: string := "Failed to send verification code"
  const InvalidCode: string := "Invalid verification code"
  const FetchFailed: string := "Failed to fetch requests"

  /** The page's state: its `useState` hooks and the `touristToken` entry of local storage. */
  datatype PageView = PageView(
    step: Step,
    email: string,
    code: string,
    loading: bool,
    error: Option<string>,
    requests: seq<TouristRequest>,
    storedToken: Option<string>)

  /** The dashboard is shown only with a token in storage. */
  predicate Consistent(v: PageView) {
    v.step == DashboardStep ==> v.storedToken.Some?
  }

  /** `fetchRequests`: the list on success, otherwise an error message; nothing else changes. */
  function AfterFetch(v: PageView, reply: FetchReply): (r: PageView)
    ensures r.requests == (if reply.Fetched? then reply.requests else v.requests)
    ensures r.error == (if reply.Fetched? then v.error else Some(if reply.FetchRejected? then FetchFailed else reply.message))
    ensures r.(requests := v.requests, error := v.error) == v
  {
    match reply
    case Fetched(requests) => v.(requests := requests)
    case FetchRejected => v.(error := Some(FetchFailed))
    case FetchUnreachable(m) => v.(error := Some(m))
  }

  /** The mount effect: a stored token opens the dashboard and loads the requests. */
  function Start(savedToken: Option<string>, reply: FetchReply): (r: PageView)
    ensures Consistent(r)
    ensures r.step == DashboardStep <==> savedToken.Some? && savedToken.value != ""
    ensures r.storedToken == savedToken && r.email == "" && r.code == "" && !r.loading
    ensures r.step != DashboardStep ==> r.requests == [] && r.error == None
    // with a stored token the requests are loaded at once
    ensures savedToken.Some? && savedToken.value != "" ==>
      r == AfterFetch(PageView(DashboardStep, "", "", false, None, [], savedToken), reply)
  {
    var initial := PageView(EmailStep, "", "", false, None, [], savedToken);
    if savedToken.Some? && savedToken.value != "" then AfterFetch(initial.(step := DashboardStep), reply)
    else initial
  }

  /** `handleSendCode`: only an accepted request moves on to the code step. */
  function AfterSend(v: PageView, reply: SendReply): (r: PageView)
    ensures Consistent(v) ==> Consistent(r)
    ensures r.step == (if reply.SendOk? then VerifyStep else v.step)
    ensures r.error.None? <==> reply.SendOk?
    ensures reply.SendRejected? ==> r.error == Some(ErrorOr(reply.error, SendFailed))
    ensures reply.SendUnreachable? ==> r.error == Some(reply.message)
    ensures !r.loading
    ensures r.(step := v.step, error := v.error, loading := v.loading) == v
  {
    match reply
    case SendOk => v.(step := VerifyStep, loading := false, error := None)
    case SendRejected(e) => v.(loading := false, error := Some(ErrorOr(e, SendFailed)))
    case SendUnreachable(m) => v.(loading := false, error := Some(m))
  }

  /**
   * `handleVerifyCode`: an accepted code stores the token, opens the
   * dashboard and loads the requests (`fetched` is that load's answer).
   */
  function AfterVerify(v: PageView, reply: VerifyReply, fetched: FetchReply): (r: PageView)
    ensures Consistent(v) ==> Consistent(r)
    ensures reply.VerifyOk? ==> r.step == DashboardStep && r.storedToken == Some(reply.token)
    // an accepted code then loads the requests with the new token
    ensures reply.VerifyOk? ==>
      r == AfterFetch(v.(storedToken := Some(reply.token), step := DashboardStep, error := None), fetched).(loading := false)
    ensures !reply.VerifyOk? ==> r == v.(loading := false, error := Some(
      if reply.VerifyRejected? then ErrorOr(reply.error, InvalidCode) else reply.message))
    ensures !r.loading && r.email == v.email && r.code == v.code
  {
    match reply
    case VerifyOk(token) =>
      AfterFetch(v.(storedToken := Some(token), step := DashboardStep, error := None), fetched).(loading := false)
    case VerifyRejected(e) => v.(loading := false, error := Some(ErrorOr(e, InvalidCode)))
    case VerifyUnreachable(m) => v.(loading := false, error := Some(m))
  }

  /** `handleLogout`: the token is removed and the page starts over; `error` is left as it was. */
  function AfterLogout(v: PageView): (r: PageView)
    ensures Consistent(r) && r.step == EmailStep && r.storedToken.None?
    ensures r.email == "" && r.code == "" && r.requests == []
    ensures r.loading == v.loading && r.error == v.error
  {
    v.(storedToken := None, step := EmailStep, email := "", code := "", requests := [])
  }

  /** The page, with its handlers. */
  class DashboardPage {
    var step: Step
    var email: string
    var code: string
    var loading: bool
    var error: Option<string>
    var requests: seq<TouristRequest>
    var storedToken: Option<string>

    function View(): PageView
      reads this
    {
      PageView(step, email, code, loading, error, requests, storedToken)
    }

    ghost predicate Valid()
      reads this
    {
      Consistent(View())
    }

    /** The first render and its mount effect, with the token found in storage and the reply to the load. */
    constructor (savedToken: Option<string>, reply: FetchReply)
      ensures Valid()
      ensures View() == Start(savedToken, reply)
    {
      step, email, code, loading, error, requests, storedToken := EmailStep, "", "", false, None, [], savedToken;
      new;
      if savedToken.Some? && savedToken.value != "" {
        step := DashboardStep;
        FetchRequests(reply);
      }
    }

    /** `fetchRequests`. */
    method FetchRequests(reply: FetchReply)
      modifies this
      ensures View() == AfterFetch(old(View()), reply)
    {
      match reply
      case Fetched(list) => requests := list;
      case FetchRejected => error := Some(FetchFailed);
      case FetchUnreachable(m) => error := Some(m);
    }

    /** The email field's `onChange`. */
    method EnterEmail(text: string)
      requires Valid()
      modifies this
      ensures Valid()
      ensures View() == old(View()).(email := text)
    {
      email := text;
    }

    /** The code field's `onChange`. */
    method EnterCode(text: string)
      requires Valid()
      modifies this
      ensures Valid()
      ensures View() == old(View()).(code := SanitizeCode(text))
      ensures |code| <= 6
    {
      code := SanitizeCode(text);
    }

    /** Whether the verify button is enabled. */
    function CanVerify(): (enabled: bool)
      reads this
      ensures enabled <==> !loading && |code| == 6
    {
      !loading && |code| == 6
    }

    method SendCode(reply: SendReply)
      requires Valid()
      modifies this
      ensures Valid()
      ensures View() == AfterSend(old(View()), reply)
    {
      loading := true;
      error := None;
      match reply {
        case SendOk => step := VerifyStep;
        case SendRejected(e) => error := Some(ErrorOr(e, SendFailed));
        case SendUnreachable(m) => error := Some(m);
      }
      loading := false;
    }

    method VerifyCode(reply: VerifyReply, fetched: FetchReply)
      requires Valid()
      modifies this
      ensures Valid()
      ensures View() == AfterVerify(old(View()), reply, fetched)
    {
      loading := true;
      error := None;
      match reply {
        case VerifyOk(token) =>
          storedToken := Some(token);
          step := DashboardStep;
          FetchRequests(fetched);
        case VerifyRejected(e) => error := Some(ErrorOr(e, InvalidCode));
        case VerifyUnreachable(m) => error := Some(m);
      }
      loading := false;
    }

    /** "Use a different email": back to the first step, nothing else changes. */
    method UseDifferentEmail()
      requires Valid()
      modifies this
      ensures Valid()
      ensures View() == old(View()).(step := EmailStep)
    {
      step := EmailStep;
    }

    method Logout()
      modifies this
      ensures Valid()
      ensures View() == AfterLogout(old(View()))
    {
      storedToken := None;
      step := EmailStep;
      email := "";
      code := "";
      requests := [];
    }
  }
}
