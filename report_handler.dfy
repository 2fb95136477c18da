/**
 * The report escalation engine: a new report is stored as pending; safety
 * concerns and harassment suspend the reported student at once; a third
 * report within six months flags the new report for manual review.
 */
module ReportHandler {
  import opened Wrappers
  import opened Store
  import Text

  /** Six 30-day months in milliseconds: the pattern-detection window. */
  const SixMonthsMs: int := 6 * 30 * 24 * 60 * 60 * 1000

  /** Reports in the window, the new one included, that flag the new report. */
  const PatternThreshold: nat := 3

  const SuspensionAction: string := "User temporarily suspended pending investigation"
  const SuccessMessage: string := "Report submitted successfully"
  const FailureMessage: string := "Failed to process report"

  datatype ReportData = ReportData(kind: ReportType, reportedUserId: Id, reportedBy: Id, description: string)

  datatype HandleResult =
    | Handled(reportId: Id, message: string, immediateAction: bool)
    | Failed(error: string)

  /** The report types that suspend the reported student at once. */
  predicate Escalates(kind: ReportType) {
    kind == SafetyConcern || kind == Harassment
  }

  function PatternAction(count: nat): string {
    "Flagged for manual review - " + Text.NatToString(count) + " total reports detected"
  }

  function NewReport(id: Id, data: ReportData, now: int): Report {
    Report(id, data.kind, data.reportedUserId, data.reportedBy, data.description, Pending, None, now)
  }

  /** The urgent notice for a severe report. */
  function UrgentNotice(r: Report): Notification {
    Notification(r.id, ReportTypeName(r.kind), r.reportedUserId, r.reportedBy, r.description)
  }

  function PatternNotice(reportId: Id, userId: Id, count: nat): Notification {
    Notification(reportId, "PATTERN_DETECTED", userId, "SYSTEM",
      "User has " + Text.NatToString(count) + " reports in the last 6 months. Manual review recommended.")
  }

  function ManualReviewNotice(userId: Id, count: nat): Notification {
    Notification("PATTERN_ALERT", "MANUAL_REVIEW_REQUIRED", userId, "SYSTEM",
      "User " + userId + " has " + Text.NatToString(count) + " reports. Requires manual review.")
  }

  /** The reports against `userId` in the window ending at `now`, before any new report is stored. */
  function PriorCount(t: Tables, userId: Id, now: int): nat {
    RecentReportCount(t.reports, userId, now - SixMonthsMs)
  }

  /** Sets status and actionTaken of the stored report `id`. */
  function Review(t: Tables, id: Id, action: string): Tables
    requires id in t.reports
  {
    t.(reports := t.reports[id := t.reports[id].(status := UnderReview, actionTaken := Some(action))])
  }

  /**
   * `handleReport` on the tables `t`, with `now` for the clock and `newId`
   * for the id the database gives the new report: the tables afterwards and
   * the result. The steps run in the source's order (store, suspend, count,
   * flag) and nothing is undone when a later step fails.
   */
  function Handle(t: Tables, data: ReportData, now: int, newId: Id): (r: (Tables, HandleResult))
    // a report id already in use: the create fails and nothing changes
    ensures newId in t.reports ==> r == (t, Failed(FailureMessage))
    // otherwise the report is stored, with the input's fields, and no other report changes
    ensures newId !in t.reports ==>
      && newId in r.0.reports
      && r.0.reports == t.reports[newId := r.0.reports[newId]]
      && var stored := r.0.reports[newId];
         stored.kind == data.kind && stored.reportedUserId == data.reportedUserId
         && stored.reportedBy == data.reportedBy && stored.description == data.description
         && stored.createdAt == now
    // a severe report against an unknown student: failure, but the pending report and the notice stay
    ensures newId !in t.reports && Escalates(data.kind) && data.reportedUserId !in t.students ==>
      && r.1 == Failed(FailureMessage)
      && r.0.reports[newId].status == Pending && r.0.reports[newId].actionTaken == None
      && r.0.students == t.students
      && r.0.outbox == t.outbox + [UrgentNotice(NewReport(newId, data, now))]
    // success: the count includes the new report; a pattern overrides the suspension text
    ensures newId !in t.reports && (!Escalates(data.kind) || data.reportedUserId in t.students) ==>
      var count := PriorCount(t, data.reportedUserId, now) + 1;
      var stored := r.0.reports[newId];
      && r.1 == Handled(newId, SuccessMessage, Escalates(data.kind))
      && stored.status == (if Escalates(data.kind) || count >= PatternThreshold then UnderReview else Pending)
      && stored.actionTaken == (if count >= PatternThreshold then Some(PatternAction(count))
                                else if Escalates(data.kind) then Some(SuspensionAction)
                                else None)
      && r.0.students == (if Escalates(data.kind)
                          then t.students[data.reportedUserId := t.students[data.reportedUserId].(status := Suspended)]
                          else t.students)
      && r.0.outbox == t.outbox
                       + (if Escalates(data.kind) then [UrgentNotice(NewReport(newId, data, now))] else [])
                       + (if count >= PatternThreshold then [PatternNotice(newId, data.reportedUserId, count)] else [])
  {
    if newId in t.reports then
      (t, Failed(FailureMessage))
    else
      var report := NewReport(newId, data, now);
      var created := t.(reports := t.reports[newId := report]);
      var notified := if Escalates(data.kind) then created.(outbox := created.outbox + [UrgentNotice(report)]) else created;
      if Escalates(data.kind) && data.reportedUserId !in t.students then
        (notified, Failed(FailureMessage))
      else
        var suspended :=
          if Escalates(data.kind) then
            Review(notified.(students := t.students[data.reportedUserId := t.students[data.reportedUserId].(status := Suspended)]),
                   newId, SuspensionAction)
          else notified;
        var count := RecentReportCount(suspended.reports, data.reportedUserId, now - SixMonthsMs);
        CountAfterInsert(t.reports, report, data.reportedUserId, now - SixMonthsMs);
        CountIgnoresReview(created.reports, newId, UnderReview, SuspensionAction, data.reportedUserId, now - SixMonthsMs);
        var flagged :=
          if count >= PatternThreshold then
            Review(suspended.(outbox := suspended.outbox + [PatternNotice(newId, data.reportedUserId, count)]),
                   newId, PatternAction(count))
          else suspended;
        (flagged, Handled(newId, SuccessMessage, Escalates(data.kind)))
  }

  /** `handleReport`: the database calls in the source's order. */
  method HandleReport(db: Db, data: ReportData, now: int, newId: Id) returns (result: HandleResult)
    requires db.Valid()
    modifies db
    ensures db.Valid()
    ensures (db.State(), result) == Handle(old(db.State()), data, now, newId)
  {
    var report := NewReport(newId, data, now);
    var ok := db.CreateReport(report);
    if !ok {
      return Failed(FailureMessage);
    }
    if Escalates(data.kind) {
      db.Notify(UrgentNotice(report));
      ok := db.UpdateStudentStatus(data.reportedUserId, Suspended);
      if !ok {
        return Failed(FailureMessage);
      }
      ok := db.UpdateReport(newId, UnderReview, SuspensionAction);
      assert ok;
    }
    var count := db.CountReports(data.reportedUserId, now - SixMonthsMs);
    if count >= PatternThreshold {
      db.Notify(PatternNotice(newId, data.reportedUserId, count));
      ok := db.UpdateReport(newId, UnderReview, PatternAction(count));
      assert ok;
    }
    result := Handled(newId, SuccessMessage, Escalates(data.kind));
  }

  /** `countUserReports`: the reports against `userId` in the six months up to `now`. */
  method CountUserReports(db: Db, userId: Id, now: int) returns (count: nat)
    ensures count == PriorCount(db.State(), userId, now)
  {
    count := db.CountReports(userId, now - SixMonthsMs);
  }

  /**
   * `flagForManualReview` on the tables `t`: the notice is sent, then the
   * student is put back to pending approval, whatever its status was. An
   * unknown student makes the update throw (`false`), after the notice.
   */
  function Flag(t: Tables, userId: Id, now: int): (r: (Tables, bool))
    ensures r.1 <==> userId in t.students
    ensures r.0.outbox == t.outbox + [ManualReviewNotice(userId, PriorCount(t, userId, now))]
    ensures r.0.reports == t.reports
    ensures r.1 ==> userId in r.0.students && r.0.students[userId].status == PendingApproval
    ensures r.1 ==> forall id | id in t.students && id != userId :: id in r.0.students && r.0.students[id] == t.students[id]
    ensures r.1 ==> r.0.students.Keys == t.students.Keys
    ensures r.1 ==> r.0.students[userId] == t.students[userId].(status := PendingApproval)
    ensures !r.1 ==> r.0.students == t.students
  {
    var notified := t.(outbox := t.outbox + [ManualReviewNotice(userId, PriorCount(t, userId, now))]);
    if userId in t.students then
      (notified.(students := t.students[userId := t.students[userId].(status := PendingApproval)]), true)
    else
      (notified, false)
  }

  /** `flagForManualReview`: `ok` is false where the source's student update throws. */
  method FlagForManualReview(db: Db, userId: Id, now: int) returns (ok: bool)
    requires db.Valid()
    modifies db
    ensures db.Valid()
    ensures (db.State(), ok) == Flag(old(db.State()), userId, now)
  {
    var count := CountUserReports(db, userId, now);
    db.Notify(ManualReviewNotice(userId, count));
    ok := db.UpdateStudentStatus(userId, PendingApproval);
  }
}
