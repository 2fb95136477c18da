# WanderNest core, modelled in Dafny

WanderNest matches tourists with student guides. This project models the decision logic and state updates of its core, and proves what they promise:

- **Report escalation engine** (`ReportHandler`). A report is stored as pending. Safety concerns and harassment suspend the reported student and notify the admins. A third report against the same user within six 30-day months flags the new report for manual review. No step is undone when a later one fails.
- **Report intake** (`ReportsRoute`, `ReportForm`). The API guard chain and the client form that feeds it.
- **The two institutional-email gates**:
  - `UniversityAuth`: the case-sensitive suffix pattern of `lib/auth.ts`, with create-if-absent sign-in and its session callback;
  - `StudentAuth`: the lower-casing suffix list of `lib/auth-options.ts`, with its redirect clamp and onboarding flag;
  - lemmas where the two policies agree and where they disagree.
- **Student record handlers**: the manual verification application (`ManualVerification`) and the safety acknowledgement (`SafetyAcknowledge`).
- **Emergency contacts**: the case-insensitive exact city lookup over the constant table (`EmergencyContacts`), and the substring filter of the table view (`EmergencyContactsTable`).
- **Client-side rules**:
  - the tourist dashboard's code sanitiser, status badges and step machine (`TouristDashboard`);
  - the guide selection toggle and page (`SelectGuide`);
  - the guide card's labels (`StudentProfileCard`);
  - the single-open accordion (`SafetyAccordion`).

## How the model is built

**Database.** `Store.Db` is a class whose fields `students`, `reports` and `outbox` are maps and a sequence.
- The methods reassign these fields.
- Each database primitive (create, update, count, find by email) is a method that states its whole new state. A create fails on a duplicate id or email; an update fails on an unknown id.
- `Db.Valid()` keeps the unique-email constraint and that every record is stored under its own id.

**Handlers.** Each server handler is a method on a `Db` that follows the source's sequence of calls. It is proved equal to a pure function over the table snapshot `Tables`. The properties are proved about that function:
- `ReportHandler.Handle` for the report handler;
- `ReportsRoute.Route`, `ManualVerification.Apply` and `SafetyAcknowledge.Acknowledge` for the routes;
- `UniversityAuth.SignIn` for the sign-in callback.

**Pages.** Each page's state hooks are the fields of a class, and its handlers are methods. Every handler is proved equal to a transition function on a value snapshot of the state: `ReportForm.Submitted`, `TouristDashboard.AfterSend` and the like.

**Parameters for what the model cannot see.**
- A server's reply to a page is a parameter of the handler.
- The current time is an integer `now`, in milliseconds.
- The id the database gives a new record is a parameter.
- `encodeURIComponent` is a function parameter.

**Failures.** Where the source throws, the model returns a distinguished value instead: `Failed`, `Thrown`, `None`, or a 500 response.

## Model

| member | source | states |
|---|---|---|
| `Store.EmailIdentifiesStudent` | lib/auth.ts:70-78 | emails are unique, so a lookup by a stored student's email finds exactly that student |
| `Store.CountAfterInsert` | lib/reportHandler.ts:56-64 | storing a new report raises the window count by one exactly when the report is against that user and inside the window |
| `Store.CountIgnoresReview` | lib/reportHandler.ts:46-52 | changing a report's status and action never changes any count |
| `Store.Db.CreateReport` | lib/reportHandler.ts:15-23 | the report is added under its id unless the id is taken, and nothing else changes |
| `Store.Db.UpdateReport` | lib/reportHandler.ts:46-52 | only status and actionTaken of that report change; fails on an unknown id |
| `Store.Db.UpdateStudentStatus` | lib/reportHandler.ts:40-43 | only that student's status changes; fails on an unknown student |
| `Store.Db.AcknowledgeSafety` | app/api/safety/acknowledge/route.ts:16-22 | only that student's two acknowledgement fields change, and the updated record is returned; fails on an unknown student |
| `Store.Db.CreateStudent` | app/api/student/manual-verification/route.ts:43-54 | the student is added unless its id or its email is taken, and nothing else changes |
| `Store.Db.FindStudentByEmail` | lib/auth.ts:70-78 | returns the unique student with that email, or none |
| `Store.Db.HasStudentWithEmail` | app/api/student/manual-verification/route.ts:25-27 | true exactly when some student has that email |
| `Store.Db.CountReports` | lib/reportHandler.ts:56-64 | the number of reports against the user created at or after `since` |
| `Store.Db.Notify` | lib/reportHandler.ts:31-37 | the notification is appended to the log and nothing else changes |
| `ReportHandler.Escalates` | lib/reportHandler.ts:26-29 | safety concerns and harassment are the report types that suspend at once |
| `ReportHandler.Handle` | lib/reportHandler.ts:12-101 | see the bullet list after the table |
| `ReportHandler.HandleReport` | lib/reportHandler.ts:12-101 | the database calls in the source's order end in the state and result of `Handle` |
| `ReportHandler.CountUserReports` | lib/reportHandler.ts:103-112 | the count of reports against the user in the six months up to `now` |
| `ReportHandler.Flag` | lib/reportHandler.ts:114-130 | see the bullet list after the table |
| `ReportHandler.FlagForManualReview` | lib/reportHandler.ts:114-130 | notify and then update, ending in the state of `Flag` |
| `ReportsRoute.AllTypesListed` | app/api/reports/route.ts:18 | `Object.values(ReportType)` lists every report type |
| `ReportsRoute.FindType` | app/api/reports/route.ts:18 | finds the listed type with that name, or says none has it |
| `ReportsRoute.ParseReportType` | app/api/reports/route.ts:18 | a string is accepted exactly when it is the name of a report type, and then yields that type |
| `ReportsRoute.ParseReportTypeName` | app/api/reports/route.ts:18 | parsing a type's name gives the type back |
| `ReportsRoute.Validate` | app/api/reports/route.ts:10-23 | see the bullet list after the table |
| `ReportsRoute.Respond` | app/api/reports/route.ts:32-47 | see the bullet list after the table |
| `ReportsRoute.Route` | app/api/reports/route.ts:5-55 | see the bullet list after the table |
| `ReportsRoute.Post` | app/api/reports/route.ts:5-55 | the guards and then the handler, ending in the state and response of `Route` |
| `Text.Trim` | components/ReportForm.tsx:39 | no white space at either end; the input with only white space cut from each end; empty exactly for an all-white-space input |
| `ReportForm.CanSubmit` | components/ReportForm.tsx:39 | a type is chosen and the trimmed description is not empty |
| `ReportForm.FindOption` | components/ReportForm.tsx:97 | returns an option of the list with that type, or none when no option has it |
| `ReportForm.ShowsUrgentWarning` | components/ReportForm.tsx:25-32 | the urgent warning shows for exactly the types the engine escalates |
| `ReportForm.SuccessAlert` | components/ReportForm.tsx:69-81 | the urgent alert comes exactly when immediate action was taken; otherwise the message is the submitted text followed by the report id |
| `ReportForm.AlertMentionsIdOnlyWhenNotUrgent` | components/ReportForm.tsx:69-81 | the urgent message does not depend on the id; the other message tells different ids apart |
| `ReportForm.FormRequestPassesRoute` | components/ReportForm.tsx:39-57 | whatever passes the form's check, with both ids present, passes the route's guards and reaches the engine with the trimmed description |
| `ReportForm.Submitted` | components/ReportForm.tsx:34-95 | see the bullet list after the table |
| `ReportForm.ReportFormState.constructor` | components/ReportForm.tsx:19-23 | no type, empty description, not loading, no error, no success |
| `ReportForm.ReportFormState.ChooseType` | components/ReportForm.tsx:119 | only the type changes |
| `ReportForm.ReportFormState.EditDescription` | components/ReportForm.tsx:145 | only the description changes |
| `ReportForm.ReportFormState.Submit` | components/ReportForm.tsx:34-95 | the handler's steps end in the values, request and alert of `Submitted` |
| `Http.ErrorOr` | components/ReportForm.tsx:62-64 | the server's error text when it sent a non-empty one, otherwise the fallback |
| `UniversityAuth.MatchesUniversityPattern` | lib/auth.ts:7 | the four alternatives of the regex as suffix tests, case-sensitive |
| `UniversityAuth.InValidDomains` | lib/auth.ts:10-21 | the domain ends with one of the listed endings |
| `UniversityAuth.UpToAt` | lib/auth.ts:13 | a prefix of the string without '@', stopped only by an '@' or the end |
| `UniversityAuth.DomainOf` | lib/auth.ts:13 | there is a domain exactly when the email has an '@', and it contains no '@' |
| `UniversityAuth.DomainOfParts` | lib/auth.ts:13 | the domain of `local@domain` (before any second '@') is `domain` |
| `UniversityAuth.UpToAtPrefix` | lib/auth.ts:13 | cutting at the first '@' recovers a part that has no '@' |
| `UniversityAuth.CountryCodeSuffix` | lib/auth.ts:7 | an ending of a stem plus two lower-case letters matches the `[a-z]{2}$` alternative |
| `UniversityAuth.ValidDomainsMatchPattern` | lib/auth.ts:7-21 | every ending in `VALID_DOMAINS` already matches the regex, so the list never changes the answer |
| `UniversityAuth.IsUniversityEmail` | lib/auth.ts:12-22 | undefined (the source throws) exactly when there is no '@'; otherwise whether the domain matches the pattern |
| `UniversityAuth.LowerCaseDomainAccepted` | lib/auth.ts:12-22 | "a@mit.edu" is a university email |
| `UniversityAuth.UpperCaseDomainRejected` | lib/auth.ts:12-22 | "a@MIT.EDU" is not: matching is case-sensitive |
| `UniversityAuth.SignIn` | lib/auth.ts:37-66 | see the bullet list after the table |
| `UniversityAuth.SignInCallback` | lib/auth.ts:37-66 | the callback's steps end in the state and result of `SignIn` |
| `UniversityAuth.SessionFor` | lib/auth.ts:67-86 | the session changes only when a student with its email exists, and then takes that student's id and status |
| `UniversityAuth.Session` | lib/auth.ts:67-86 | an absent `session.user` is left alone; a present one is updated as `SessionFor` says |
| `StudentAuth.IsStudentEmail` | lib/auth-options.ts:17-20 | the lower-cased email ends with one of the student endings |
| `StudentAuth.StudentEmailIgnoresCase` | lib/auth-options.ts:17-20 | an email is a student email exactly when its lower-cased form is |
| `StudentAuth.SignIn` | lib/auth-options.ts:35-42 | redirect to the invalid-email page exactly for a present, non-empty, non-student email; otherwise allowed, also with no email |
| `StudentAuth.Redirect` | lib/auth-options.ts:66-69 | the result always starts with baseUrl; it is url exactly when url starts with baseUrl, otherwise baseUrl |
| `StudentAuth.RedirectIdempotent` | lib/auth-options.ts:66-69 | clamping twice equals clamping once |
| `StudentAuth.SessionFor` | lib/auth-options.ts:43-65 | see the bullet list after the table |
| `StudentAuth.Session` | lib/auth-options.ts:43-65 | the id is set first; the rest is as `SessionFor` says, and an empty email stops the lookup after the id is set |
| `StudentAuth.StudentEndingsMatchPattern` | lib/auth-options.ts:7-15 | every student ending matches the university regex of lib/auth.ts |
| `StudentAuth.EndingWithinDomain` | lib/auth-options.ts:19 | an ending without '@' of `local@domain` is an ending of the domain |
| `StudentAuth.StudentEndingsHaveNoAt` | lib/auth-options.ts:7-15 | no student ending contains '@' |
| `StudentAuth.StudentEmailIsUniversityEmail` | lib/auth-options.ts:17-20 | for a lower-case email with a single '@', a student email is also a university email |
| `StudentAuth.UpperCaseDisagreement` | lib/auth-options.ts:17-20 | "a@MIT.EDU" is a student email but not a university email |
| `StudentAuth.EndingDisagreement` | lib/auth-options.ts:17-20 | "a@x.university" is a university email but not a student email |
| `StudentAuth.NoStudentEndingEndsInY` | lib/auth-options.ts:7-15 | no student ending ends in 'y' |
| `StudentAuth.UniversityEnding` | lib/auth.ts:7 | "a@x.university" matches the `.university` alternative |
| `ManualVerification.Complete` | app/api/student/manual-verification/route.ts:16-17 | the six required fields are present and non-empty; the ID card is not among them |
| `ManualVerification.IdCardUrl` | app/api/student/manual-verification/route.ts:40 | the placeholder URL built from the email |
| `ManualVerification.Applicant` | app/api/student/manual-verification/route.ts:43-54 | the stored record: the form's fields, the placeholder URL, pending approval |
| `ManualVerification.Apply` | app/api/student/manual-verification/route.ts:4-72 | see the bullet list after the table |
| `ManualVerification.ResubmissionConflicts` | app/api/student/manual-verification/route.ts:25-34 | after a successful application, another complete one with the same email gets 409 and changes nothing |
| `ManualVerification.IdCardNotRequired` | app/api/student/manual-verification/route.ts:14-22 | the ID card file makes no difference to the outcome |
| `ManualVerification.Post` | app/api/student/manual-verification/route.ts:4-72 | the field and email guards and the insert end in the state and response of `Apply` |
| `SafetyAcknowledge.Acknowledge` | app/api/safety/acknowledge/route.ts:4-36 | see the bullet list after the table |
| `SafetyAcknowledge.AcknowledgeTwice` | app/api/safety/acknowledge/route.ts:16-22 | acknowledging again leaves the later time |
| `SafetyAcknowledge.Post` | app/api/safety/acknowledge/route.ts:4-36 | the id check and the update end in the state and response of `Acknowledge` |
| `EmergencyContacts.FindCity` | lib/emergencyContacts.ts:100-102 | none exactly when no lower-cased city equals the key; otherwise the first entry whose lower-cased city equals it |
| `EmergencyContacts.ContactsByCity` | lib/emergencyContacts.ts:99-103 | an entry of the table whose city equals the query ignoring case; undefined exactly when no city does |
| `EmergencyContacts.LookupIgnoresCase` | lib/emergencyContacts.ts:101 | looking up a query or its lower-cased form gives the same answer |
| `EmergencyContacts.LowersTo` | lib/emergencyContacts.ts:101 | a string lower-cases to `t` when it does so letter by letter |
| `EmergencyContacts.CitiesDistinct` | lib/emergencyContacts.ts:12-97 | no two entries have the same city, even ignoring case |
| `EmergencyContacts.EveryCityFound` | lib/emergencyContacts.ts:99-103 | every city of the table is found under its own name in any letter case |
| `EmergencyContacts.PartOfNameNotFound` | lib/emergencyContacts.ts:101 | "Delhi" finds nothing: matching is on the whole name |
| `EmergencyContacts.WholeNameFound` | lib/emergencyContacts.ts:101 | "new delhi" finds New Delhi |
| `EmergencyContactsTable.Matches` | components/EmergencyContactsTable.tsx:10-12 | the lower-cased term occurs in the lower-cased city or country |
| `EmergencyContactsTable.FilterContacts` | components/EmergencyContactsTable.tsx:9-13 | the result keeps table order and holds each matching contact as often as the table does, and no other |
| `EmergencyContactsTable.EmptyTermKeepsAll` | components/EmergencyContactsTable.tsx:9-13 | an empty search shows the whole table in order |
| `EmergencyContactsTable.CellText` | components/EmergencyContactsTable.tsx:67-70 | an absent or empty number shows as '-', a present one as itself |
| `TouristDashboard.DigitsOnly` | app/tourist/dashboard/page.tsx:198 | only digits, in the input's order; a string of digits is kept whole |
| `TouristDashboard.DigitsOnlyAppend` | app/tourist/dashboard/page.tsx:198 | digits of a concatenation are the digits of the first part, then those of the second |
| `TouristDashboard.SanitizeCode` | app/tourist/dashboard/page.tsx:198 | at most six characters, all digits, the first digits typed in order: all of them or exactly six |
| `TouristDashboard.SanitizeIdempotent` | app/tourist/dashboard/page.tsx:198 | sanitising a sanitised code changes nothing |
| `TouristDashboard.StatusBadge` | app/tourist/dashboard/page.tsx:125-134 | PENDING, MATCHED, ACCEPTED and CANCELLED get their colours; EXPIRED and every other status get the gray class |
| `TouristDashboard.AfterFetch` | app/tourist/dashboard/page.tsx:98-115 | the requests on success, otherwise the failure message, and nothing else changes |
| `TouristDashboard.Start` | app/tourist/dashboard/page.tsx:36-43 | the dashboard opens exactly when a non-empty token is stored, and then shows the result of loading the requests (`AfterFetch`); the shown step always has a token behind it |
| `TouristDashboard.AfterSend` | app/tourist/dashboard/page.tsx:45-68 | the step moves to 'verify' only on an accepted send; otherwise the error is the server's text or the fallback; loading ends false |
| `TouristDashboard.AfterVerify` | app/tourist/dashboard/page.tsx:70-96 | an accepted code stores its token, opens the dashboard and shows the result of loading the requests (`AfterFetch`); a refused or failed one only sets the error |
| `TouristDashboard.AfterLogout` | app/tourist/dashboard/page.tsx:117-123 | the token is removed; email, code and requests are cleared; the step is 'email' |
| `TouristDashboard.DashboardPage.constructor` | app/tourist/dashboard/page.tsx:36-43 | the mount effect ends in `Start`, keeping the dashboard-needs-token invariant |
| `TouristDashboard.DashboardPage.FetchRequests` | app/tourist/dashboard/page.tsx:98-115 | ends in `AfterFetch` |
| `TouristDashboard.DashboardPage.EnterEmail` | app/tourist/dashboard/page.tsx:153 | only the email changes |
| `TouristDashboard.DashboardPage.EnterCode` | app/tourist/dashboard/page.tsx:198 | only the code changes, to the sanitised text |
| `TouristDashboard.DashboardPage.CanVerify` | app/tourist/dashboard/page.tsx:214 | enabled exactly when not loading and the code has six characters |
| `TouristDashboard.DashboardPage.SendCode` | app/tourist/dashboard/page.tsx:45-68 | ends in `AfterSend` |
| `TouristDashboard.DashboardPage.VerifyCode` | app/tourist/dashboard/page.tsx:70-96 | ends in `AfterVerify` |
| `TouristDashboard.DashboardPage.UseDifferentEmail` | app/tourist/dashboard/page.tsx:222 | only the step changes, back to 'email' |
| `TouristDashboard.DashboardPage.Logout` | app/tourist/dashboard/page.tsx:117-123 | ends in `AfterLogout` |
| `SelectGuide.Without` | app/booking/select-guide/page.tsx:60 | exactly the other ids remain, in their order; a duplicate-free list stays so |
| `SelectGuide.WithoutAppend` | app/booking/select-guide/page.tsx:60 | filtering distributes over concatenation |
| `SelectGuide.HeadNotInTail` | app/booking/select-guide/page.tsx:57-63 | in a duplicate-free selection the first id does not occur again |
| `SelectGuide.Toggle` | app/booking/select-guide/page.tsx:57-63 | see the bullet list after the table |
| `SelectGuide.ToggleTwice` | app/booking/select-guide/page.tsx:57-63 | toggling an unselected id twice restores the selection |
| `SelectGuide.Mounted` | app/booking/select-guide/page.tsx:22-55 | no request id: the error "No request ID provided" and nothing else; otherwise the matches or the failure message, and nothing else changes; loading ends false |
| `SelectGuide.Submitted` | app/booking/select-guide/page.tsx:65-96 | see the bullet list after the table |
| `SelectGuide.SelectGuidePage.constructor` | app/booking/select-guide/page.tsx:13-19 | no matches, nothing selected, loading, no error |
| `SelectGuide.SelectGuidePage.Mount` | app/booking/select-guide/page.tsx:22-55 | the match request is sent exactly when a request id is given; ends in `Mounted` |
| `SelectGuide.SelectGuidePage.ToggleStudent` | app/booking/select-guide/page.tsx:57-63 | only the selection changes, by `Toggle` |
| `SelectGuide.SelectGuidePage.CanConfirm` | app/booking/select-guide/page.tsx:210 | the confirm button is enabled exactly when the selection is not empty and no submission is running |
| `SelectGuide.SelectGuidePage.SubmitSelection` | app/booking/select-guide/page.tsx:65-96 | ends in the state, request and outcome of `Submitted` |
| `StudentProfileCard.ReliabilityOf` | components/tourist/StudentProfileCard.tsx:122-137 | perfect attendance exactly for no no-shows and some trips; the no-show count exactly when it is positive; otherwise a new guide |
| `StudentProfileCard.ReliabilityText` | components/tourist/StudentProfileCard.tsx:122-137 | the fixed texts for the two fixed cases; otherwise the count in decimal, which reads back as the count, then " no-show", with a final "s" exactly when the count is above one |
| `StudentProfileCard.AttendanceLine` | components/tourist/StudentProfileCard.tsx:122-137 | "Perfect attendance" and "New guide" each appear exactly in their case |
| `StudentProfileCard.BadgeColor` | components/tourist/StudentProfileCard.tsx:35-44 | gold, silver and bronze get their colours; any other or no badge gets the gray default |
| `StudentProfileCard.ShownReasons` | components/tourist/StudentProfileCard.tsx:153-159 | no list for no reasons; otherwise one to three reasons, the first ones in order: all of them or exactly three |
| `SafetyAccordion.Toggled` | components/SafetyAccordion.tsx:17-19 | the open item closes; any other item opens in its place |
| `SafetyAccordion.Visible` | components/SafetyAccordion.tsx:49 | an item's content is shown exactly when it is the open one, so at most one is shown |
| `SafetyAccordion.ToggleShowsOnlyThatItem` | components/SafetyAccordion.tsx:17-19 | after a toggle, the toggled item alone is shown, or nothing when it was the open one |
| `SafetyAccordion.Accordion.constructor` | components/SafetyAccordion.tsx:15 | no item is open at first |
| `SafetyAccordion.Accordion.Toggle` | components/SafetyAccordion.tsx:17-19 | the open item becomes `Toggled` of the old one |
| `SafetyAccordion.Accordion.IsOpen` | components/SafetyAccordion.tsx:49 | true exactly when the open index is this item, which is exactly when its content is rendered; then no other item is open |

The rows whose third column says "see the bullet list after the table" state the following.

- **`ReportHandler.Handle`.** A new report is stored as pending with the input's fields, and no other report changes.
  - Safety concerns and harassment: the student is suspended, the report goes under review with the suspension text, and the urgent notice is logged.
  - A count of three or more, the new report included, moves the report under review and overwrites the action with the pattern text. The pattern notice is logged.
  - `immediateAction` is exactly the escalation test, whatever the count.
  - An unknown student on an escalating report gives `Failed`. The pending report and the notice stay.
- **`ReportHandler.Flag`.** The notice is logged and the student's status becomes pending approval, whatever it was. Other students and the reports do not change. An unknown student fails after the notice.
- **`ReportsRoute.Validate`.** 400 "Missing required fields" exactly when a field is missing or empty. 400 "Invalid report type" exactly when all fields are present but the type is unknown. A complete body with a known type is accepted, and its data is passed through unchanged.
- **`ReportsRoute.Respond`.** 201 exactly for success, with the same id, message and flag. A failure gives 500 with the handler's error text, or the fallback when that text is empty.
- **`ReportsRoute.Route`.** The status is 201, 400 or 500. A body that cannot be read gives 500 "Internal server error". A refused body gets `Validate`'s 400 response and changes nothing. An accepted body goes to `Handle`, and `Respond` turns its result into the response.
- **`ReportForm.Submitted`.**
  - A request is sent exactly when a type is chosen and the trimmed description is not empty. Otherwise only the validation message changes.
  - The request carries the trimmed description.
  - Acceptance clears the form and shows the alert the severity calls for.
  - A failure keeps what was typed and shows the server's message.
- **`UniversityAuth.SignIn`.**
  - No email: refused.
  - A redirect to manual verification, with the encoded email, exactly for non-university emails. Nothing is stored.
  - No '@': thrown.
  - A university email that no student has, with an account, adds exactly one pending-approval student with that email and is allowed; a taken new id makes the create throw.
  - A university email that a student already has, or one without an account, is allowed and stores nothing.
  - No other case stores anything.
  - Allowed implies a university email.
  - The database invariant is kept.
- **`StudentAuth.SessionFor`.** No session update without an email. `hasCompletedOnboarding` is true exactly when a student with the email exists. The id is the user's. The student id and status come from that student; with no such student both are unset.
- **`ManualVerification.Apply`.**
  - The status is 200, 400, 409 or 500.
  - An unreadable form gives 500; a missing field gives 400; a taken email gives 409. In each of these cases nothing changes.
  - 200 exactly for a complete form with a new email. It adds exactly one pending-approval applicant with the placeholder ID card URL, and returns its id.
- **`SafetyAcknowledge.Acknowledge`.**
  - The status is 200, 400 or 500.
  - A missing id gives 400. An unreadable body or an unknown id gives 500 "Failed to acknowledge safety guidelines". In these cases nothing changes.
  - On 200 only that student's two fields change, to `true` and `now`. The response carries `now`.
- **`SelectGuide.Toggle`.** The id is selected afterwards exactly when it was not. An unselected id is appended at the end. The other ids and their order are unchanged. A duplicate-free selection stays duplicate-free.
- **`SelectGuide.Submitted`.** An empty selection sends nothing and alerts. Otherwise the request carries the request id and the whole selection. The page moves to the pending page exactly when the server accepts; otherwise the server's message or the fallback is alerted.

## Left out

- Prisma, NextAuth and the Google provider are foreign libraries. The database is the `Store.Db` class; the two callbacks are functions of what they receive.
- `sendAdminNotification` is imported by lib/reportHandler.ts but not defined in lib/email.ts. Notifications are appended to a log and never fail. Sending email is not modelled.
- The race between counting and updating in `handleReport`: the model is one request at a time.
- The clock is the integer `now`. One `now` serves a whole request: the source's separate `new Date()` calls are taken to read the same time.
- `toLowerCase` and `trim` are ASCII-only. Unicode case mapping and Unicode white space are not modelled.
- `encodeURIComponent` is a function parameter and not modelled.
- The regular expression is written by hand as suffix tests; no regex engine is modelled.
- `fetch`, `localStorage`, the router, `alert` and React rendering are outside the model. Replies and stored values are parameters; navigation and alerts are returned values.
- The `loading` and `submitting` flags are set and cleared within one handler call, so the model shows only their final values.
- A thrown value that is not an `Error` ("An error occurred", "Failed to load your requests") cannot arise from the modelled replies, so those fallbacks are not modelled.
- The suggested price range of the select-guide page is display data and is not modelled.
- JSON fields that are present but not strings are not modelled: a field is absent or a string.
- The status and badge tables are looked up as plain maps. Keys inherited from JavaScript's object prototype are not modelled.
- Whether a report's `reportedUserId` names an existing student is not checked when the report is stored; the schema with that constraint is not part of this model. An unknown student fails only at the suspension update.
- The ID card file upload is not modelled; only the placeholder URL is stored.
- `toFixed` and date formatting are not modelled; neither are the table's rendered rows beyond the '-' fallback.
- The session objects are modelled as separate values with their own fields. Aliasing of `session.user` with other objects is not modelled.
- `StudentAuth.Session`: a lookup with an empty email (`where: { email: undefined }`) is taken to throw, since a unique lookup needs its field; the model stops there, after the id is set. The library's own behaviour in that case is not modelled.
