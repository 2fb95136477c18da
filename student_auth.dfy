/**
 * Student sign-in (lib/auth-options.ts): the whole email, lower-cased, must
 * end with one of the student endings; the session learns whether the
 * student has completed onboarding; redirects stay on the site.
 */
module StudentAuth {
  import opened Wrappers
  import opened Store
  import Text
  import Sessions
  import UniversityAuth

  /** `STUDENT_EMAIL_DOMAINS`. */
  const StudentEmailDomains: seq<string> := [".edu", ".edu.in", ".ac.uk", ".edu.au", ".edu.sg", ".ac.in"]

  /** `isStudentEmail`: the lower-cased email ends with one of the student endings. */
  predicate IsStudentEmail(email: string) {
    exists i | 0 <= i < |StudentEmailDomains| :: Text.EndsWith(Text.Lower(email), StudentEmailDomains[i])
  }

  /** Whether an email is a student email does not depend on letter case. */
  lemma StudentEmailIgnoresCase(email: string)
    ensures IsStudentEmail(email) <==> IsStudentEmail(Text.Lower(email))
  {
    Text.LowerIdempotent(email);
  }

  const InvalidEmailUrl: string := "/student/signin?error=invalid_email"

  /**
   * The `signIn` callback: an email that is present but not a student email
   * is sent back to the sign-in page; anything else, even no email, is
   * allowed.
   */
  function SignIn(email: Option<string>): (r: UniversityAuth.SignInResult)
    ensures r == UniversityAuth.RedirectTo(InvalidEmailUrl) <==> email.Some? && email.value != "" && !IsStudentEmail(email.value)
    ensures r != UniversityAuth.RedirectTo(InvalidEmailUrl) ==> r == UniversityAuth.Allowed
  {
    if email.Some? && email.value != "" && !IsStudentEmail(email.value) then UniversityAuth.RedirectTo(InvalidEmailUrl)
    else UniversityAuth.Allowed
  }

  /** The `redirect` callback: a URL on the site is kept, any other is replaced by the site's base URL. */
  function Redirect(url: string, baseUrl: string): (r: string)
    ensures Text.StartsWith(r, baseUrl)
    ensures r == url <==> Text.StartsWith(url, baseUrl)
    ensures r != url ==> r == baseUrl
  {
    if Text.StartsWith(url, baseUrl) then url else baseUrl
  }

  /** Redirecting twice lands where redirecting once does. */
  lemma RedirectIdempotent(url: string, baseUrl: string)
    ensures Redirect(Redirect(url, baseUrl), baseUrl) == Redirect(url, baseUrl)
  {
  }

  /**
   * The `session` callback on values, for the adapter user `userId` with
   * `userEmail`: `None` where the lookup throws, because an empty email
   * leaves it without a unique field.
   */
  ghost function SessionFor(students: map<Id, Student>, user: Sessions.SessionView, userId: string, userEmail: string)
    : (r: Option<Sessions.SessionView>)
    ensures r.None? <==> userEmail == ""
    // onboarding is complete exactly when a student with the user's email exists
    ensures r.Some? ==> r.value.hasCompletedOnboarding == Some(EmailTaken(students, userEmail))
    ensures r.Some? ==> r.value.id == userId
    ensures r.Some? ==> (r.value.studentId.Some? <==> EmailTaken(students, userEmail))
    ensures r.Some? && EmailTaken(students, userEmail) ==>
      exists id | id in students :: students[id].email == userEmail
        && r.value.studentId == Some(students[id].id) && r.value.studentStatus == Some(students[id].status)
    ensures r.Some? && !EmailTaken(students, userEmail) ==> r.value.studentStatus == None
    ensures r.Some? ==> r.value.email == user.email && r.value.status == user.status
  {
    if userEmail == "" then None
    else
      match StudentWithEmail(students, userEmail)
      case None => Some(user.(id := userId, studentId := None, studentStatus := None, hasCompletedOnboarding := Some(false)))
      case Some(s) =>
        Some(user.(id := userId, studentId := Some(s.id), studentStatus := Some(s.status), hasCompletedOnboarding := Some(true)))
  }

  /**
   * The `session` callback: `user` is `session.user`, which may be absent;
   * `ok` is false where the lookup throws, after the id has been set.
   */
  method Session(db: Db, user: Sessions.SessionUser?, userId: string, userEmail: string) returns (ok: bool)
    requires db.Valid()
    modifies user
    ensures user == null ==> ok
    ensures user != null && ok ==> Some(user.View()) == SessionFor(db.students, old(user.View()), userId, userEmail)
    ensures user != null && !ok ==> userEmail == "" && user.View() == old(user.View()).(id := userId)
  {
    ok := true;
    if user != null {
      user.id := userId;
      if userEmail == "" {
        return false;
      }
      var student := db.FindStudentByEmail(userEmail);
      user.studentId := if student.Some? then Some(student.value.id) else None;
      user.studentStatus := if student.Some? then Some(student.value.status) else None;
      user.hasCompletedOnboarding := Some(student.Some?);
    }
  }

  /** Every student ending is accepted by the university pattern of lib/auth.ts. */
  lemma StudentEndingsMatchPattern(domain: string, i: nat)
    requires i < |StudentEmailDomains| && Text.EndsWith(domain, StudentEmailDomains[i])
    ensures UniversityAuth.MatchesUniversityPattern(domain)
  {
    if i == 1 {
      UniversityAuth.CountryCodeSuffix(domain, ".edu.", "in");
    } else if i == 2 {
      UniversityAuth.CountryCodeSuffix(domain, ".ac.", "uk");
    } else if i == 3 {
      UniversityAuth.CountryCodeSuffix(domain, ".edu.", "au");
    } else if i == 4 {
      UniversityAuth.CountryCodeSuffix(domain, ".edu.", "sg");
    } else if i == 5 {
      UniversityAuth.CountryCodeSuffix(domain, ".ac.", "in");
    }
  }

  /** An ending without '@' of `local@domain` is an ending of `domain`. */
  lemma EndingWithinDomain(local: string, domain: string, ending: string)
    requires '@' !in domain && '@' !in ending
    requires Text.EndsWith(local + "@" + domain, ending)
    ensures Text.EndsWith(domain, ending)
  {
    var email := local + "@" + domain;
    // the '@' at |local| cannot lie inside the ending
    assert email[|local|] == '@';
    assert |ending| <= |domain|;
    assert domain[|domain| - |ending|..] == email[|email| - |ending|..];
  }

  lemma StudentEndingsHaveNoAt(i: nat)
    requires i < |StudentEmailDomains|
    ensures '@' !in StudentEmailDomains[i]
  {
  }

  /**
   * The two policies agree on a lower-case email with a single '@': a
   * student email is a university email.
   */
  lemma StudentEmailIsUniversityEmail(local: string, domain: string)
    requires '@' !in local && '@' !in domain
    requires Text.Lower(local + "@" + domain) == local + "@" + domain
    requires IsStudentEmail(local + "@" + domain)
    ensures UniversityAuth.IsUniversityEmail(local + "@" + domain) == Some(true)
  {
    var email := local + "@" + domain;
    UniversityAuth.DomainOfParts(local, domain, "");
    assert email + "" == email;
    var i :| 0 <= i < |StudentEmailDomains| && Text.EndsWith(Text.Lower(email), StudentEmailDomains[i]);
    StudentEndingsHaveNoAt(i);
    EndingWithinDomain(local, domain, StudentEmailDomains[i]);
    StudentEndingsMatchPattern(domain, i);
  }

  /** The policies disagree on case: an upper-case ".EDU" address is a student email but not a university email. */
  lemma UpperCaseDisagreement(email: string)
    requires email == "a@MIT.EDU"
    ensures IsStudentEmail(email) && UniversityAuth.IsUniversityEmail(email) == Some(false)
  {
    UniversityAuth.UpperCaseDomainRejected(email);
    var lower := Text.Lower(email);
    assert |lower| == 9;
    assert lower[5] == Text.LowerChar(email[5]) == '.';
    assert lower[6] == Text.LowerChar(email[6]) == 'e';
    assert lower[7] == Text.LowerChar(email[7]) == 'd';
    assert lower[8] == Text.LowerChar(email[8]) == 'u';
    assert lower[5..] == StudentEmailDomains[0];
  }

  /** The policies disagree on endings: ".university" is accepted only by the university pattern. */
  lemma EndingDisagreement(email: string)
    requires email == "a@x.university"
    ensures !IsStudentEmail(email) && UniversityAuth.IsUniversityEmail(email) == Some(true)
  {
    UniversityEnding(email);
    var lower := Text.Lower(email);
    assert |lower| == 14 && lower[13] == Text.LowerChar(email[13]) == 'y';
    forall i | 0 <= i < |StudentEmailDomains|
      ensures !Text.EndsWith(lower, StudentEmailDomains[i])
    {
      NoStudentEndingEndsInY(i);
    }
  }

  lemma NoStudentEndingEndsInY(i: nat)
    requires i < |StudentEmailDomains|
    ensures StudentEmailDomains[i] != [] && StudentEmailDomains[i][|StudentEmailDomains[i]| - 1] != 'y'
  {
  }

  lemma UniversityEnding(email: string)
    requires email == "a@x.university"
    ensures UniversityAuth.IsUniversityEmail(email) == Some(true)
  {
    var local, domain := email[..1], email[2..];
    assert email == local + "@" + domain + "";
    UniversityAuth.DomainOfParts(local, domain, "");
    assert domain[1..] == ".university";
  }
}
