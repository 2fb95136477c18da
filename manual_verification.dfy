/**
 * `POST /api/student/manual-verification`: a student whose email is not a
 * university email applies with a form; the application is stored as a
 * student awaiting approval, once per email.
 */
module ManualVerification {
  import opened Wrappers
  import opened Store
  import opened Http
  import ReportsRoute

  /** The submitted form fields; an absent field is `None`. The ID card file is only carried along. */
  datatype ApplicationForm = ApplicationForm(
    email: Option<string>,
    name: Option<string>,
    institute: Option<string>,
    nationality: Option<string>,
    city: Option<string>,
    coverLetter: Option<string>,
    idCardFile: Option<string>)

  const MissingFields: string := "Missing required fields"
  const DuplicateEmail: string := "A student with this email already exists"
  const InternalError: string := "Internal server error"
  const Submitted: string := "Application submitted successfully"

  /** The six fields the server requires; the ID card file is not among them. */
  predicate Complete(form: ApplicationForm) {
    && ReportsRoute.Given(form.email) && ReportsRoute.Given(form.name) && ReportsRoute.Given(form.institute)
    && ReportsRoute.Given(form.nationality) && ReportsRoute.Given(form.city) && ReportsRoute.Given(form.coverLetter)
  }

  /** Until an upload exists, the stored ID card URL is a placeholder derived from the email. */
  function IdCardUrl(email: string): string {
    "placeholder-url-for-" + email + "-id-card"
  }

  /** The record an application creates. */
  function Applicant(id: Id, form: ApplicationForm): Student
    requires Complete(form)
  {
    Student(id, form.email.value, form.name.value, None, Some(form.institute.value), Some(form.nationality.value),
            Some(form.city.value), Some(form.coverLetter.value), Some(IdCardUrl(form.email.value)),
            PendingApproval, false, None)
  }

  /**
   * The route on the tables `t`; `form` is `None` when the form data cannot
   * be read and `newId` is the id the database gives the new student.
   */
  function Apply(t: Tables, form: Option<ApplicationForm>, newId: Id): (r: (Tables, Response))
    ensures r.1.status in {200, 400, 409, 500}
    ensures form.None? ==> r == (t, Error(500, InternalError))
    // a missing field: 400, nothing stored
    ensures form.Some? && !Complete(form.value) ==> r == (t, Error(400, MissingFields))
    // an email already registered: 409, nothing stored
    ensures form.Some? && Complete(form.value) && EmailTaken(t.students, form.value.email.value) ==>
      r == (t, Error(409, DuplicateEmail))
    // the store changes only on success, and then by exactly the new applicant
    ensures r.1.status != 200 ==> r.0 == t
    ensures r.1.status == 200 <==>
      form.Some? && Complete(form.value) && !EmailTaken(t.students, form.value.email.value) && newId !in t.students
    ensures r.1.status == 200 ==>
      && r.1.body == ApplicationAccepted(Submitted, newId)
      && r.0 == t.(students := t.students[newId := Applicant(newId, form.value)])
      && r.0.students[newId].status == PendingApproval
      && r.0.students[newId].email == form.value.email.value
    ensures WellFormed(t) ==> WellFormed(r.0)
  {
    match form
    case None => (t, Error(500, InternalError))
    case Some(f) =>
      if !Complete(f) then (t, Error(400, MissingFields))
      else if EmailTaken(t.students, f.email.value) then (t, Error(409, DuplicateEmail))
      else if newId in t.students then (t, Error(500, InternalError))
      else
        var added := t.students[newId := Applicant(newId, f)];
        assert added[newId].email == f.email.value;
        (t.(students := added), Response(200, ApplicationAccepted(Submitted, newId)))
  }

  /** A second application with the same email is refused with 409, whatever else it says. */
  lemma ResubmissionConflicts(t: Tables, first: ApplicationForm, second: ApplicationForm, newId: Id, otherId: Id)
    requires Apply(t, Some(first), newId).1.status == 200
    requires Complete(second) && second.email == first.email
    ensures Apply(Apply(t, Some(first), newId).0, Some(second), otherId) == (Apply(t, Some(first), newId).0, Error(409, DuplicateEmail))
  {
    var after := Apply(t, Some(first), newId).0;
    assert after.students[newId].email == second.email.value;
  }

  /** The ID card file is not checked: an application without one is handled exactly like one with it. */
  lemma IdCardNotRequired(t: Tables, form: ApplicationForm, newId: Id)
    ensures Apply(t, Some(form.(idCardFile := None)), newId) == Apply(t, Some(form), newId)
  {
  }

  /** `POST`: the field check, the lookup by email, then the insert. */
  method Post(db: Db, form: Option<ApplicationForm>, newId: Id) returns (response: Response)
    requires db.Valid()
    modifies db
    ensures db.Valid()
    ensures (db.State(), response) == Apply(old(db.State()), form, newId)
  {
    if form.None? {
      return Error(500, InternalError);
    }
    var f := form.value;
    if !Complete(f) {
      return Error(400, MissingFields);
    }
    var existing := db.HasStudentWithEmail(f.email.value);
    if existing {
      return Error(409, DuplicateEmail);
    }
    var ok := db.CreateStudent(Applicant(newId, f));
    if !ok {
      return Error(500, InternalError);
    }
    response := Response(200, ApplicationAccepted(Submitted, newId));
  }
}
