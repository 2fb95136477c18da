/**
 * `POST /api/safety/acknowledge`: a student records that they have read the
 * safety guidelines, with the time of acknowledgement.
 */
module SafetyAcknowledge {
  import opened Wrappers
  import opened Store
  import opened Http
  import ReportsRoute

  /** The parsed JSON body; an absent `studentId` is `None`. */
  datatype AcknowledgeBody = AcknowledgeBody(studentId: Option<string>)

  const MissingStudentId: string := "Student ID is required"
  const AcknowledgeFailed: string := "Failed to acknowledge safety guidelines"
  const Acknowledged: string := "Safety guidelines acknowledged"

  /**
   * The route on the tables `t` at time `now`; `request` is `None` when the
   * body is not valid JSON. An unknown student makes the update throw.
   */
  function Acknowledge(t: Tables, request: Option<AcknowledgeBody>, now: int): (r: (Tables, Response))
    ensures r.1.status in {200, 400, 500}
    ensures request.Some? && !ReportsRoute.Given(request.value.studentId) ==> r == (t, Error(400, MissingStudentId))
    ensures r.1.status == 200 <==> request.Some? && ReportsRoute.Given(request.value.studentId) && request.value.studentId.value in t.students
    // an unreadable body, or an id no student has (the update throws): 500
    ensures request.None? || (ReportsRoute.Given(request.value.studentId) && request.value.studentId.value !in t.students) ==>
      r == (t, Error(500, AcknowledgeFailed))
    ensures r.1.status != 200 ==> r.0 == t
    ensures r.1.status == 500 ==> r.1 == Error(500, AcknowledgeFailed)
    // success: that student's two acknowledgement fields are set, nothing else changes
    ensures r.1.status == 200 ==>
      var id := request.value.studentId.value;
      && r.1.body == SafetyAcknowledged(Acknowledged, now)
      && r.0.reports == t.reports && r.0.outbox == t.outbox
      && r.0.students.Keys == t.students.Keys
      && r.0.students[id] == t.students[id].(safetyGuidelinesAcknowledged := true, safetyAcknowledgedAt := Some(now))
      && (forall other | other in t.students && other != id :: r.0.students[other] == t.students[other])
    ensures WellFormed(t) ==> WellFormed(r.0)
  {
    match request
    case None => (t, Error(500, AcknowledgeFailed))
    case Some(body) =>
      if !ReportsRoute.Given(body.studentId) then (t, Error(400, MissingStudentId))
      else
        var id := body.studentId.value;
        if id !in t.students then (t, Error(500, AcknowledgeFailed))
        else
          var s := t.students[id].(safetyGuidelinesAcknowledged := true, safetyAcknowledgedAt := Some(now));
          (t.(students := t.students[id := s]), Response(200, SafetyAcknowledged(Acknowledged, now)))
  }

  /** Acknowledging twice leaves the later time. */
  lemma AcknowledgeTwice(t: Tables, id: Id, first: int, second: int)
    requires id in t.students
    ensures var once := Acknowledge(t, Some(AcknowledgeBody(Some(id))), first).0;
            var twice := Acknowledge(once, Some(AcknowledgeBody(Some(id))), second).0;
            twice == Acknowledge(t, Some(AcknowledgeBody(Some(id))), second).0
  {
    var once := Acknowledge(t, Some(AcknowledgeBody(Some(id))), first).0;
    assert id in once.students;
  }

  /** `POST`: the id check, then the update. */
  method Post(db: Db, request: Option<AcknowledgeBody>, now: int) returns (response: Response)
    requires db.Valid()
    modifies db
    ensures db.Valid()
    ensures (db.State(), response) == Acknowledge(old(db.State()), request, now)
  {
    if request.None? {
      return Error(500, AcknowledgeFailed);
    }
    if !ReportsRoute.Given(request.value.studentId) {
      return Error(400, MissingStudentId);
    }
    var updated := db.AcknowledgeSafety(request.value.studentId.value, now);
    if updated.None? {
      return Error(500, AcknowledgeFailed);
    }
    response := Response(200, SafetyAcknowledged(Acknowledged, now));
  }
}
