/**
 * The guide selection page: the matches for a tourist request, a selection
 * of guide ids the tourist toggles, and the submission of that selection.
 */
module SelectGuide {
  import opened Wrappers
  import opened Sequences
  import opened Http
  import ReportsRoute
  import StudentProfileCard

  /** `s.filter(id => id !== x)`. */
  function Without(s: seq<string>, x: string): (r: seq<string>)
    ensures forall y :: y in r <==> y in s && y != x
    ensures IsSubsequence(r, s)
    ensures x !in s ==> r == s
    ensures NoDuplicates(s) ==> NoDuplicates(r)
  {
    if s == [] then []
    else
      var rest := Without(s[1..], x);
      assert s == [s[0]] + s[1..];
      if s[0] == x then rest
      else
        var r := [s[0]] + rest;
        assert r[1..] == rest;
        if NoDuplicates(s) then HeadNotInTail(s); r else r
  }

  lemma HeadNotInTail(s: seq<string>)
    requires s != [] && NoDuplicates(s)
    ensures s[0] !in s[1..]
  {
    forall j | 0 <= j < |s| - 1 ensures s[1..][j] != s[0] {
      assert s[1..][j] == s[j + 1];
    }
  }

  /** Filtering distributes over concatenation. */
  lemma {:induction false} WithoutAppend(a: seq<string>, b: seq<string>, x: string)
    ensures Without(a + b, x) == Without(a, x) + Without(b, x)
  {
    if a == [] {
      assert a + b == b;
    } else {
      assert (a + b)[0] == a[0] && (a + b)[1..] == a[1..] + b;
      WithoutAppend(a[1..], b, x);
    }
  }

  /** `handleToggleStudent`: a selected id is removed, any other id is added at the end. */
  function Toggle(selected: seq<string>, id: string): (r: seq<string>)
    ensures id in r <==> id !in selected
    ensures id !in selected ==> r == selected + [id]
    // the other ids, and their order, are as they were
    ensures Without(r, id) == Without(selected, id)
    ensures NoDuplicates(selected) ==> NoDuplicates(r)
  {
    if id in selected then Without(selected, id)
    else
      WithoutAppend(selected, [id], id);
      assert Without([id], id) == [];
      selected + [id]
  }

  /** Selecting an unselected guide and then deselecting it restores the selection. */
  lemma ToggleTwice(selected: seq<string>, id: string)
    requires id !in selected
    ensures Toggle(Toggle(selected, id), id) == selected
  {
    WithoutAppend(selected, [id], id);
    assert Without([id], id) == [];
  }

  /** The answer to `POST /api/tourist/request/match`. */
  datatype MatchReply =
    | Matched(matches: seq<StudentProfileCard.StudentMatch>)
    | MatchRefused(error: Option<string>)
    | MatchUnreachable

  /** The answer to `POST /api/tourist/request/select`. */
  datatype SelectReply = Selected | SelectRefused(error: Option<string>) | SelectUnreachable

  /** The body the page posts to `/api/tourist/request/select`. */
  datatype Selection = Selection(requestId: Option<string>, selectedStudentIds: seq<string>)

  /** What the user sees after submitting: an alert, or the pending-booking page. */
  datatype SubmitOutcome = AlertShown(message: string) | NavigatedTo(url: string)

  const NoRequestId: string := "No request ID provided"
  const FindFailed: string := "Failed to find matching guides"
  const LoadFailed: string := "Failed to load matching guides"
  const SelectAtLeastOne: string := "Please select at least one guide"
  const SubmitFailed: string := "Failed to submit selection"

  /** `/booking/pending?requestId=${requestId}`; an absent id is written as JavaScript writes `null`. */
  function PendingUrl(requestId: Option<string>): string {
    "/booking/pending?requestId=" + (if requestId.Some? then requestId.value else "null")
  }

  datatype SelectView = SelectView(
    requestId: Option<string>,
    matches: seq<StudentProfileCard.StudentMatch>,
    selected: seq<string>,
    loading: bool,
    submitting: bool,
    error: Option<string>)

  /**
   * The mount effect. Without a request id the page shows an error and asks
   * nothing; otherwise `reply` is the answer to the match request.
   */
  function Mounted(v: SelectView, reply: MatchReply): (r: SelectView)
    ensures !ReportsRoute.Given(v.requestId) ==> r == v.(error := Some(NoRequestId), loading := false)
    ensures ReportsRoute.Given(v.requestId) && reply.Matched? ==> r == v.(matches := reply.matches, loading := false)
    ensures ReportsRoute.Given(v.requestId) && reply.MatchRefused? ==>
      r == v.(error := Some(ErrorOr(reply.error, FindFailed)), loading := false)
    ensures ReportsRoute.Given(v.requestId) && reply.MatchUnreachable? ==> r == v.(error := Some(LoadFailed), loading := false)
    ensures !r.loading && r.selected == v.selected && r.requestId == v.requestId
    ensures r.matches != v.matches ==> ReportsRoute.Given(v.requestId) && reply.Matched?
  {
    if !ReportsRoute.Given(v.requestId) then v.(error := Some(NoRequestId), loading := false)
    else
      match reply
      case Matched(m) => v.(matches := m, loading := false)
      case MatchRefused(e) => v.(error := Some(ErrorOr(e, FindFailed)), loading := false)
      case MatchUnreachable => v.(error := Some(LoadFailed), loading := false)
  }

  /**
   * `handleSubmitSelection`: the selection sent, if any, and what the user
   * sees. An empty selection sends nothing.
   */
  function Submitted(v: SelectView, reply: SelectReply): (r: (SelectView, Option<Selection>, SubmitOutcome))
    ensures r.1.None? <==> v.selected == []
    ensures v.selected == [] ==> r == (v, None, AlertShown(SelectAtLeastOne))
    ensures r.1.Some? ==> r.1.value == Selection(v.requestId, v.selected) && r.0 == v.(submitting := false)
    ensures r.2.NavigatedTo? <==> r.1.Some? && reply.Selected?
    ensures r.2.NavigatedTo? ==> r.2.url == PendingUrl(v.requestId)
    ensures r.1.Some? && reply.SelectRefused? ==> r.2 == AlertShown(ErrorOr(reply.error, SubmitFailed))
    ensures r.1.Some? && reply.SelectUnreachable? ==> r.2 == AlertShown(SubmitFailed)
  {
    if v.selected == [] then (v, None, AlertShown(SelectAtLeastOne))
    else
      var sent := Some(Selection(v.requestId, v.selected));
      var outcome := match reply
        case Selected => NavigatedTo(PendingUrl(v.requestId))
        case SelectRefused(e) => AlertShown(ErrorOr(e, SubmitFailed))
        case SelectUnreachable => AlertShown(SubmitFailed);
      (v.(submitting := false), sent, outcome)
  }

  class SelectGuidePage {
    var requestId: Option<string>
    var matches: seq<StudentProfileCard.StudentMatch>
    var selected: seq<string>
    var loading: bool
    var submitting: bool
    var error: Option<string>

    function View(): SelectView
      reads this
    {
      SelectView(requestId, matches, selected, loading, submitting, error)
    }

    /** The first render, with the `requestId` search parameter. */
    constructor (requestId: Option<string>)
      ensures View() == SelectView(requestId, [], [], true, false, None)
    {
      this.requestId := requestId;
      matches, selected, loading, submitting, error := [], [], true, false, None;
    }

    /** The mount effect; `requested` tells whether the match request was sent. */
    method Mount(reply: MatchReply) returns (requested: bool)
      modifies this
      ensures requested <==> ReportsRoute.Given(requestId)
      ensures View() == Mounted(old(View()), reply)
    {
      if !ReportsRoute.Given(requestId) {
        error := Some(NoRequestId);
        loading := false;
        return false;
      }
      requested := true;
      loading := true;
      match reply {
        case Matched(m) => matches := m;
        case MatchRefused(e) => error := Some(ErrorOr(e, FindFailed));
        case MatchUnreachable => error := Some(LoadFailed);
      }
      loading := false;
    }

    /** A guide card's checkbox. */
    method ToggleStudent(id: string)
      modifies this
      ensures View() == old(View()).(selected := Toggle(old(selected), id))
    {
      selected := Toggle(selected, id);
    }

    /** Whether the confirm button is enabled. */
    function CanConfirm(): (enabled: bool)
      reads this
      ensures enabled <==> selected != [] && !submitting
    {
      selected != [] && !submitting
    }

    method SubmitSelection(reply: SelectReply) returns (sent: Option<Selection>, outcome: SubmitOutcome)
      modifies this
      ensures (View(), sent, outcome) == Submitted(old(View()), reply)
    {
      if selected == [] {
        return None, AlertShown(SelectAtLeastOne);
      }
      submitting := true;
      sent := Some(Selection(requestId, selected));
      match reply {
        case Selected => outcome := NavigatedTo(PendingUrl(requestId));
        case SelectRefused(e) => outcome := AlertShown(ErrorOr(e, SubmitFailed));
        case SelectUnreachable => outcome := AlertShown(SubmitFailed);
      }
      submitting := false;
    }
  }
}
