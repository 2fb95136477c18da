/**
 * The persistent records the handlers read and write (students, reports) and
 * the admin notification log, together with the create/update/count
 * operations the handlers ask of the database. A create with an id or a
 * unique email already in use, and an update of an id that does not exist,
 * fail the way the database client throws.
 */
module Store {
  import opened Wrappers

  type Id = string

  datatype ReportType =
    | SafetyConcern
    | Harassment
    | InappropriateBehavior
    | PaymentDispute
    | NoShow
    | Other

  /** The enum value as the database and the JSON bodies spell it. */
  function ReportTypeName(kind: ReportType): string {
    match kind
    case SafetyConcern => "SAFETY_CONCERN"
    case Harassment => "HARASSMENT"
    case InappropriateBehavior => "INAPPROPRIATE_BEHAVIOR"
    case PaymentDispute => "PAYMENT_DISPUTE"
    case NoShow => "NO_SHOW"
    case Other => "OTHER"
  }

  datatype ReportStatus = Pending | UnderReview | Resolved

  datatype StudentStatus = PendingApproval | Approved | Suspended

  datatype Report = Report(
    id: Id,
    kind: ReportType,
    reportedUserId: Id,
    reportedBy: Id,
    description: string,
    status: ReportStatus,
    actionTaken: Option<string>,
    createdAt: int)

  datatype Student = Student(
    id: Id,
    email: string,
    name: string,
    googleId: Option<string>,
    institute: Option<string>,
    nationality: Option<string>,
    city: Option<string>,
    coverLetter: Option<string>,
    idCardUrl: Option<string>,
    status: StudentStatus,
    safetyGuidelinesAcknowledged: bool,
    safetyAcknowledgedAt: Option<int>)

  /** One message handed to the admin notification channel. */
  datatype Notification = Notification(
    id: string,
    kind: string,
    reportedUserId: Id,
    reportedBy: string,
    description: string)

  /** A snapshot of the whole persistent state. */
  datatype Tables = Tables(
    students: map<Id, Student>,
    reports: map<Id, Report>,
    outbox: seq<Notification>)

  /** Every record is stored under its own id, and no two students share an email. */
  predicate WellFormed(t: Tables) {
    && (forall id | id in t.students :: t.students[id].id == id)
    && (forall id | id in t.reports :: t.reports[id].id == id)
    && (forall a, b | a in t.students && b in t.students :: t.students[a].email == t.students[b].email ==> a == b)
  }

  predicate EmailTaken(students: map<Id, Student>, email: string) {
    exists id | id in students :: students[id].email == email
  }

  /** `findUnique({ where: { email } })`. */
  ghost function StudentWithEmail(students: map<Id, Student>, email: string): (r: Option<Student>)
    ensures r.Some? <==> EmailTaken(students, email)
    ensures r.Some? ==> r.value.email == email && r.value in students.Values
  {
    if EmailTaken(students, email) then
      var id :| id in students && students[id].email == email;
      Some(students[id])
    else
      None
  }

  /** Emails are unique, so the student a lookup by email returns is the one stored under that email. */
  lemma EmailIdentifiesStudent(t: Tables, id: Id)
    requires WellFormed(t) && id in t.students
    ensures StudentWithEmail(t.students, t.students[id].email) == Some(t.students[id])
  {
    var found := StudentWithEmail(t.students, t.students[id].email);
    var other :| other in t.students && t.students[other] == found.value;
  }

  /** The reports against `userId` created at or after `since`. */
  function RecentReports(reports: map<Id, Report>, userId: Id, since: int): set<Id> {
    set id | id in reports && reports[id].reportedUserId == userId && reports[id].createdAt >= since
  }

  /** `report.count({ where: { reportedUserId, createdAt: { gte: since } } })`. */
  function RecentReportCount(reports: map<Id, Report>, userId: Id, since: int): nat {
    |RecentReports(reports, userId, since)|
  }

  /** Storing a report that is new raises the count by one exactly when it falls in the window. */
  lemma CountAfterInsert(reports: map<Id, Report>, r: Report, userId: Id, since: int)
    requires r.id !in reports
    ensures RecentReportCount(reports[r.id := r], userId, since)
         == RecentReportCount(reports, userId, since)
            + (if r.reportedUserId == userId && r.createdAt >= since then 1 else 0)
  {
    var before := RecentReports(reports, userId, since);
    var after := RecentReports(reports[r.id := r], userId, since);
    if r.reportedUserId == userId && r.createdAt >= since {
      assert after == before + {r.id};
    } else {
      assert after == before;
    }
  }

  /** Changing only the status or action of a stored report leaves every count alone. */
  lemma CountIgnoresReview(reports: map<Id, Report>, id: Id, status: ReportStatus, action: string, userId: Id, since: int)
    requires id in reports
    ensures RecentReportCount(reports[id := reports[id].(status := status, actionTaken := Some(action))], userId, since)
         == RecentReportCount(reports, userId, since)
  {
    var updated := reports[id := reports[id].(status := status, actionTaken := Some(action))];
    assert RecentReports(updated, userId, since) == RecentReports(reports, userId, since);
  }

  /** The database behind the handlers: its tables are fields the operations reassign. */
  class Db {
    var students: map<Id, Student>
    var reports: map<Id, Report>
    var outbox: seq<Notification>

    function State(): Tables
      reads this
    {
      Tables(students, reports, outbox)
    }

    ghost predicate Valid()
      reads this
    {
      WellFormed(State())
    }

    constructor (t: Tables)
      requires WellFormed(t)
      ensures Valid() && State() == t
    {
      students, reports, outbox := t.students, t.reports, t.outbox;
    }

    /** `report.create`: fails when the id is already in use. */
    method CreateReport(r: Report) returns (ok: bool)
      requires Valid()
      modifies this
      ensures Valid()
      ensures ok <==> r.id !in old(reports)
      ensures State() == if ok then old(State()).(reports := old(reports)[r.id := r]) else old(State())
    {
      ok := r.id !in reports;
      if ok {
        reports := reports[r.id := r];
      }
    }

    /** `report.update` of status and actionTaken: fails when the report does not exist. */
    method UpdateReport(id: Id, status: ReportStatus, action: string) returns (ok: bool)
      requires Valid()
      modifies this
      ensures Valid()
      ensures ok <==> id in old(reports)
      ensures State() == if ok
        then old(State()).(reports := old(reports)[id := old(reports)[id].(status := status, actionTaken := Some(action))])
        else old(State())
    {
      ok := id in reports;
      if ok {
        reports := reports[id := reports[id].(status := status, actionTaken := Some(action))];
      }
    }

    /** `student.update` of status: fails when the student does not exist. */
    method UpdateStudentStatus(id: Id, status: StudentStatus) returns (ok: bool)
      requires Valid()
      modifies this
      ensures Valid()
      ensures ok <==> id in old(students)
      ensures State() == if ok
        then old(State()).(students := old(students)[id := old(students)[id].(status := status)])
        else old(State())
    {
      ok := id in students;
      if ok {
        students := students[id := students[id].(status := status)];
      }
    }

    /** `student.update` of the safety acknowledgement: fails when the student does not exist. */
    method AcknowledgeSafety(id: Id, now: int) returns (updated: Option<Student>)
      requires Valid()
      modifies this
      ensures Valid()
      ensures updated.Some? <==> id in old(students)
      ensures updated.Some? ==> updated.value == old(students)[id].(safetyGuidelinesAcknowledged := true, safetyAcknowledgedAt := Some(now))
      ensures State() == if updated.Some?
        then old(State()).(students := old(students)[id := updated.value])
        else old(State())
    {
      if id in students {
        var s := students[id].(safetyGuidelinesAcknowledged := true, safetyAcknowledgedAt := Some(now));
        students := students[id := s];
        updated := Some(s);
      } else {
        updated := None;
      }
    }

    /** `student.create`: fails when the id or the (unique) email is already in use. */
    method CreateStudent(s: Student) returns (ok: bool)
      requires Valid()
      modifies this
      ensures Valid()
      ensures ok <==> s.id !in old(students) && !EmailTaken(old(students), s.email)
      ensures State() == if ok then old(State()).(students := old(students)[s.id := s]) else old(State())
    {
      ok := s.id !in students && !EmailTaken(students, s.email);
      if ok {
        students := students[s.id := s];
      }
    }

    /** `findUnique({ where: { email } })`: the one student with that email, if any. */
    method FindStudentByEmail(email: string) returns (found: Option<Student>)
      requires Valid()
      ensures found == StudentWithEmail(students, email)
    {
      if EmailTaken(students, email) {
        var id :| id in students && students[id].email == email;
        found := Some(students[id]);
        EmailIdentifiesStudent(State(), id);
      } else {
        found := None;
      }
    }

    /** `findUnique({ where: { email } })`, asking only whether a record came back. */
    method HasStudentWithEmail(email: string) returns (found: bool)
      ensures found <==> EmailTaken(students, email)
    {
      found := EmailTaken(students, email);
    }

    method CountReports(userId: Id, since: int) returns (n: nat)
      ensures n == RecentReportCount(reports, userId, since)
    {
      n := RecentReportCount(reports, userId, since);
    }

    /** Hands a message to the admin notification channel. */
    method Notify(n: Notification)
      requires Valid()
      modifies this
      ensures Valid()
      ensures State() == old(State()).(outbox := old(outbox) + [n])
    {
      outbox := outbox + [n];
    }
  }
}
