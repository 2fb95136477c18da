/**
 * The `session.user` object the authentication callbacks fill in before the
 * session reaches the pages (the fields declared for it in
 * types/next-auth.d.ts, plus the `status` that lib/auth.ts adds).
 */
module Sessions {
  import opened Wrappers
  import opened Store

  /** The values of the fields of a `session.user`. */
  datatype SessionView = SessionView(
    id: string,
    email: string,
    status: Option<StudentStatus>,
    studentId: Option<Id>,
    studentStatus: Option<StudentStatus>,
    hasCompletedOnboarding: Option<bool>)

  class SessionUser {
    var id: string
    var email: string
    var status: Option<StudentStatus>
    var studentId: Option<Id>
    var studentStatus: Option<StudentStatus>
    var hasCompletedOnboarding: Option<bool>

    function View(): SessionView
      reads this
    {
      SessionView(id, email, status, studentId, studentStatus, hasCompletedOnboarding)
    }

    /** A session user as the framework hands it over: only the id and the email are set. */
    constructor (id: string, email: string)
      ensures View() == SessionView(id, email, None, None, None, None)
    {
      this.id, this.email := id, email;
      status, studentId, studentStatus, hasCompletedOnboarding := None, None, None, None;
    }
  }
}
