/**
 * University sign-in (lib/auth.ts): the email domain is matched against the
 * university pattern and a list of accepted endings; a university email
 * creates a student awaiting approval on its first sign-in, any other email
 * is sent to the manual verification form.
 */
module UniversityAuth {
  import opened Wrappers
  import opened Store
  import Text
  import Sessions

  /** `s` up to, not including, its first '@'. */
  function UpToAt(s: string): (r: string)
    ensures Text.StartsWith(s, r)
    ensures '@' !in r
    ensures |r| < |s| ==> s[|r|] == '@'
  {
    if s == [] || s[0] == '@' then [] else [s[0]] + UpToAt(s[1..])
  }

  /**
   * `email.split('@')[1]`: the text between the first and the second '@'
   * (or the end); `None` when there is no '@', where the source gets
   * `undefined`.
   */
  function DomainOf(email: string): (r: Option<string>)
    ensures r.None? <==> '@' !in email
    ensures r.Some? ==> '@' !in r.value
  {
    if email == [] then None
    else if email[0] == '@' then Some(UpToAt(email[1..]))
    else DomainOf(email[1..])
  }

  /** The domain is what follows the first '@', up to a second '@' if there is one. */
  lemma {:induction false} DomainOfParts(local: string, domain: string, rest: string)
    requires '@' !in local && '@' !in domain
    requires rest == [] || rest[0] == '@'
    ensures DomainOf(local + "@" + domain + rest) == Some(domain)
  {
    var email := local + "@" + domain + rest;
    if local == [] {
      assert email[0] == '@' && email[1..] == domain + rest;
      UpToAtPrefix(domain, rest);
    } else {
      assert email[0] == local[0] && email[1..] == local[1..] + "@" + domain + rest;
      DomainOfParts(local[1..], domain, rest);
    }
  }

  lemma {:induction false} UpToAtPrefix(domain: string, rest: string)
    requires '@' !in domain
    requires rest == [] || rest[0] == '@'
    ensures UpToAt(domain + rest) == domain
  {
    if domain != [] {
      assert (domain + rest)[1..] == domain[1..] + rest;
      UpToAtPrefix(domain[1..], rest);
    }
  }

  predicate IsLowerLetter(c: char) { 'a' <= c <= 'z' }

  /** `s` ends with `stem` followed by exactly two lower-case letters (`stem[a-z]{2}$`). */
  predicate EndsWithCountryCode(s: string, stem: string) {
    && |s| >= |stem| + 2
    && s[|s| - |stem| - 2..|s| - 2] == stem
    && IsLowerLetter(s[|s| - 2]) && IsLowerLetter(s[|s| - 1])
  }

  /** `UNIVERSITY_EMAIL_REGEX`: `\.edu$|\.edu\.[a-z]{2}$|\.ac\.[a-z]{2}$|\.university$`, without the `i` flag. */
  predicate MatchesUniversityPattern(domain: string) {
    || Text.EndsWith(domain, ".edu")
    || EndsWithCountryCode(domain, ".edu.")
    || EndsWithCountryCode(domain, ".ac.")
    || Text.EndsWith(domain, ".university")
  }

  /** `VALID_DOMAINS`. */
  const ValidDomains: seq<string> := [".edu", ".edu.in", ".ac.uk", ".ac.fr", ".edu.au", ".ac.nz", ".edu.sg"]

  /** `VALID_DOMAINS.some(domain => emailDomain.endsWith(domain))`. */
  predicate InValidDomains(domain: string) {
    exists i | 0 <= i < |ValidDomains| :: Text.EndsWith(domain, ValidDomains[i])
  }

  /** A suffix `stem + code` with two lower-case letters in `code` is a country-code ending. */
  lemma CountryCodeSuffix(s: string, stem: string, code: string)
    requires |code| == 2 && IsLowerLetter(code[0]) && IsLowerLetter(code[1])
    requires Text.EndsWith(s, stem + code)
    ensures EndsWithCountryCode(s, stem)
  {
    assert s[|s| - |stem| - 2..|s| - 2] == (stem + code)[..|stem|];
  }

  /** Every ending in `VALID_DOMAINS` is already accepted by the pattern, so the list never changes the answer. */
  lemma ValidDomainsMatchPattern(domain: string)
    requires InValidDomains(domain)
    ensures MatchesUniversityPattern(domain)
  {
    var i :| 0 <= i < |ValidDomains| && Text.EndsWith(domain, ValidDomains[i]);
    if i == 1 || i == 4 || i == 6 {
      EduCountryEnding(domain, i);
    } else if i == 2 || i == 3 || i == 5 {
      AcCountryEnding(domain, i);
    }
  }

  /** The listed endings ".edu.in", ".edu.au" and ".edu.sg" are `.edu.[a-z]{2}` endings. */
  lemma EduCountryEnding(domain: string, i: nat)
    requires (i == 1 || i == 4 || i == 6) && Text.EndsWith(domain, ValidDomains[i])
    ensures EndsWithCountryCode(domain, ".edu.")
  {
    if i == 1 {
      CountryCodeSuffix(domain, ".edu.", "in");
    } else if i == 4 {
      CountryCodeSuffix(domain, ".edu.", "au");
    } else {
      CountryCodeSuffix(domain, ".edu.", "sg");
    }
  }

  /** The listed endings ".ac.uk", ".ac.fr" and ".ac.nz" are `.ac.[a-z]{2}` endings. */
  lemma AcCountryEnding(domain: string, i: nat)
    requires (i == 2 || i == 3 || i == 5) && Text.EndsWith(domain, ValidDomains[i])
    ensures EndsWithCountryCode(domain, ".ac.")
  {
    if i == 2 {
      CountryCodeSuffix(domain, ".ac.", "uk");
    } else if i == 3 {
      CountryCodeSuffix(domain, ".ac.", "fr");
    } else {
      CountryCodeSuffix(domain, ".ac.", "nz");
    }
  }

  /**
   * `isUniversityEmail`: `None` where the source throws (no '@', so the
   * domain is `undefined`); otherwise whether the domain matches the
   * pattern, which the list of endings never changes.
   */
  function IsUniversityEmail(email: string): (r: Option<bool>)
    ensures r.None? <==> '@' !in email
    ensures r.Some? ==> r.value == MatchesUniversityPattern(DomainOf(email).value)
  {
    match DomainOf(email)
    case None => None
    case Some(domain) =>
      if MatchesUniversityPattern(domain) then Some(true)
      else
        var listed := InValidDomains(domain);
        assert listed ==> MatchesUniversityPattern(domain) by {
          if listed { ValidDomainsMatchPattern(domain); }
        }
        Some(listed)
  }

  /** A lower-case university domain is accepted. */
  lemma LowerCaseDomainAccepted(email: string)
    requires email == "a@mit.edu"
    ensures IsUniversityEmail(email) == Some(true)
  {
    var local, domain := email[..1], email[2..];
    assert email == local + "@" + domain + "";
    DomainOfParts(local, domain, "");
    assert domain[3..] == ".edu";
  }

  /** Matching is case-sensitive: the same domain in upper case is not accepted. */
  lemma UpperCaseDomainRejected(email: string)
    requires email == "a@MIT.EDU"
    ensures IsUniversityEmail(email) == Some(false)
  {
    var local, domain := email[..1], email[2..];
    assert email == local + "@" + domain + "";
    DomainOfParts(local, domain, "");
    assert |domain| == 7 && !IsLowerLetter(domain[6]);
    assert domain[6] != ".edu"[3];
  }

  /** What the `signIn` callback returns. */
  datatype SignInResult = Refused | Allowed | RedirectTo(url: string) | Thrown

  const ManualVerificationUrl: string := "/student/manual-verification?error=invalid_domain&email="

  /** The record a first sign-in creates. */
  function NewStudent(id: Id, email: string, name: Option<string>, googleId: string): Student {
    Student(id, email, if name.Some? then name.value else "", Some(googleId),
            None, None, None, None, None, PendingApproval, false, None)
  }

  /**
   * The `signIn` callback on the tables `t`: `email` and `name` come from
   * the user, `account` is the provider account id when an account is
   * present, `newId` is the id the database gives a new student and
   * `encode` stands for `encodeURIComponent`.
   */
  function SignIn(t: Tables, email: Option<string>, name: Option<string>, account: Option<string>,
                  newId: Id, encode: string -> string): (r: (Tables, SignInResult))
    // no email: refused, nothing stored
    ensures email.None? || email.value == "" ==> r == (t, Refused)
    // the manual-verification redirect is for exactly the non-university emails, and stores nothing
    ensures r.1.RedirectTo? <==> email.Some? && email.value != "" && IsUniversityEmail(email.value) == Some(false)
    ensures r.1.RedirectTo? ==> r == (t, RedirectTo(ManualVerificationUrl + encode(email.value)))
    // an email without '@' makes the domain test throw
    ensures email.Some? && email.value != "" && '@' !in email.value ==> r == (t, Thrown)
    // at most one student is added: a new one, awaiting approval, with that email
    ensures r.0 == t || (
      && email.Some? && account.Some? && newId !in t.students
      && r.0 == t.(students := t.students[newId := NewStudent(newId, email.value, name, account.value)]))
    // a first sign-in with a university email and an account creates the student and is allowed
    ensures (&& email.Some? && email.value != "" && IsUniversityEmail(email.value) == Some(true)
             && !EmailTaken(t.students, email.value) && account.Some? && newId !in t.students) ==>
      r == (t.(students := t.students[newId := NewStudent(newId, email.value, name, account.value)]), Allowed)
    // a known university email, or one without an account, is allowed and stores nothing
    ensures (&& email.Some? && email.value != "" && IsUniversityEmail(email.value) == Some(true)
             && (EmailTaken(t.students, email.value) || account.None?)) ==> r == (t, Allowed)
    // the create fails when the new id is taken
    ensures (&& email.Some? && email.value != "" && IsUniversityEmail(email.value) == Some(true)
             && !EmailTaken(t.students, email.value) && account.Some? && newId in t.students) ==> r == (t, Thrown)
    // a student with that email already there is left untouched
    ensures email.Some? && EmailTaken(t.students, email.value) ==> r.0 == t
    // once allowed, the student exists, unless no account came with the sign-in
    ensures r.1 == Allowed ==> account.None? || EmailTaken(r.0.students, email.value)
    ensures r.1 == Allowed ==> IsUniversityEmail(email.value) == Some(true)
    ensures WellFormed(t) ==> WellFormed(r.0)
  {
    if email.None? || email.value == "" then (t, Refused)
    else
      match IsUniversityEmail(email.value)
      case None => (t, Thrown)
      case Some(false) => (t, RedirectTo(ManualVerificationUrl + encode(email.value)))
      case Some(true) =>
        if EmailTaken(t.students, email.value) || account.None? then (t, Allowed)
        else if newId in t.students then (t, Thrown)
        else
          var s := NewStudent(newId, email.value, name, account.value);
          var added := t.students[newId := s];
          assert added[newId].email == email.value;
          (t.(students := added), Allowed)
  }

  /** The `signIn` callback against the database. */
  method SignInCallback(db: Db, email: Option<string>, name: Option<string>, account: Option<string>,
                        newId: Id, encode: string -> string) returns (result: SignInResult)
    requires db.Valid()
    modifies db
    ensures db.Valid()
    ensures (db.State(), result) == SignIn(old(db.State()), email, name, account, newId, encode)
  {
    if email.None? || email.value == "" {
      return Refused;
    }
    var university := IsUniversityEmail(email.value);
    if university.None? {
      return Thrown;
    }
    if !university.value {
      return RedirectTo(ManualVerificationUrl + encode(email.value));
    }
    var known := db.HasStudentWithEmail(email.value);
    if !known && account.Some? {
      var ok := db.CreateStudent(NewStudent(newId, email.value, name, account.value));
      if !ok {
        return Thrown;
      }
    }
    result := Allowed;
  }

  /**
   * The `session` callback on values: a student with the session's email
   * gives the session its id and status; otherwise nothing changes.
   */
  ghost function SessionFor(students: map<Id, Student>, user: Sessions.SessionView): (r: Sessions.SessionView)
    ensures r != user ==> EmailTaken(students, user.email)
    ensures EmailTaken(students, user.email) ==>
      exists id | id in students :: students[id].email == user.email
        && r == user.(id := students[id].id, status := Some(students[id].status))
  {
    match StudentWithEmail(students, user.email)
    case None => user
    case Some(s) =>
      var id :| id in students && students[id] == s;
      user.(id := s.id, status := Some(s.status))
  }

  /** The `session` callback: `user` is `session.user`, which may be absent. */
  method Session(db: Db, user: Sessions.SessionUser?)
    requires db.Valid()
    modifies user
    ensures user != null ==> user.View() == SessionFor(db.students, old(user.View()))
  {
    if user != null {
      var student := db.FindStudentByEmail(user.email);
      if student.Some? {
        user.id := student.value.id;
        user.status := Some(student.value.status);
      }
    }
  }
}
