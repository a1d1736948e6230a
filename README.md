# Onboarding for a hackathon: sessions, team codes and submissions

This project models the core of a Next.js and MongoDB onboarding application for a
hackathon. A team registers and receives a short team code. It then enters that
code, picks one of three questions and gets a 12-hour session. Within that session
it uploads its solution exactly once.

The model has two halves.

**The API routes.** Each route is an operation on one value, `Store.DbState`. That
value holds the five collections the routes use:

- `team_codes` and `onboarding_session`, as maps keyed by the code;
- `teams`, `team_submissions` and `submissions`, as sequences in insertion order;
- a counter that supplies fresh object ids.

Every route is stated twice:

- as a pure function, returning the reply together with the new store;
- as the handler, a method on the class `Store.Database`, which performs the
  look-ups and writes in the order the source does.

The handler's `ensures` equates its reply and its new state with the function. The
function's contracts and lemmas then state what the route promises:

- status codes in both directions;
- which collections change, and exactly how;
- that the store invariant is preserved;
- that a team never gets a second submission or a second registration.

`Store.WellFormed` is that invariant: keys match documents, session keys are
lower-case, ids are fresh, and no two `team_submissions` share a team code.

**The browser screens.** These are the welcome form, the registration form, the
question-selection screen and the session countdown. Each is modelled the same way:

- a pure value of the screen's state;
- step functions that also return the requests sent and any alert raised;
- for screens whose state the source updates in place, a class whose methods are
  proved equal to those steps.

Every server response and every timer firing is a parameter. `ClientCommon.FormatTime`
is the `hh:mm:ss` display. Both screens define it identically, and it is written
out with JavaScript's `Math.floor` and sign-keeping `%`.

Wall-clock time is an integer `now`, in milliseconds. The random bytes behind a team
code are a supplied sequence of base64 texts, one per attempt.

A few behaviours of the code are worth stating explicitly:

- PUT with `isCompleted: false` reopens a completed session (`OnboardingSession.CompletionCanBeReverted`).
- Completing twice re-stamps `endTime` (`OnboardingSession.CompleteTwice`).
- A session with a null start time reads as started in 1970. The next POST therefore
  replaces it, even when it was completed (`OnboardingSession.PendingSessionIsReplaced`).
- PATCH writes to `submissions`, which no probe reads (`Scenarios.PatchInvisibleToProbe`).

## Model

| member | source | states |
|---|---|---|
| Store.FindSubmission | app/api/upload/route.ts:42-44 | `findOne` on `team_submissions` finds a document exactly when one with that team code exists; the one found has that code and is stored |
| Store.AppendKeepsUnique | app/api/upload/route.ts:42-75 | appending a document only when no stored one has its team code keeps team codes unique in `team_submissions` |
| Store.Database.StoreRegistration | app/api/register-team-code/route.ts:75-100 | the three writes: the code is stored as registered, the team is appended under a fresh id, and the code ends up linked to that id; nothing else changes |
| Common.TrimEmptyIffBlank | app/components/WelcomeScreen.tsx:119-122 | `s.trim()` is empty exactly when every character of `s` is JavaScript white space |
| Common.LowerFacts | app/api/register-team-code/route.ts:9 | lower-casing leaves no upper-case letter, does nothing to a lower-case string, and is idempotent |
| OnboardingSession.RemainingTime | app/api/onboarding-session/route.ts:54-57 | the full 12 hours while the clock has not started; otherwise never negative, at most 12 hours once started, zero exactly when 12 hours have elapsed, and remaining plus elapsed is 12 hours while time is left |
| OnboardingSession.RemainingTimeNonIncreasing | app/api/onboarding-session/route.ts:183-190 | the reported remaining time never grows as the clock advances |
| OnboardingSession.StartSession | app/api/onboarding-session/route.ts:5-109 | 400 exactly for a missing or non-string code; 404 exactly for an unknown or unregistered lower-cased code; 409 exactly for a completed row within the window without forceRestart; refusals write nothing; resuming returns the stored row untouched with its remaining time; otherwise any old row is replaced by exactly one fresh row (a zero or missing question type stored as null, the clock started unless the type was null, not completed, full 12 hours reported); the invariant is kept |
| OnboardingSession.PendingSessionIsReplaced | app/api/onboarding-session/route.ts:38-89 | a row whose start time is null reads as started at the epoch, so after 12 hours past 1970 a POST replaces it with a fresh row, whatever its completion flag |
| OnboardingSession.Post | app/api/onboarding-session/route.ts:33-99 | the handler's look-up, `deleteOne` and `insertOne` give exactly the reply and store of `StartSession`, and keep the invariant |
| OnboardingSession.ReplaceSession | app/api/onboarding-session/route.ts:74-89 | the old row, if any, is removed and the fresh row stands under the same key with the next id; nothing else changes |
| OnboardingSession.UpdateSession | app/api/onboarding-session/route.ts:112-209 | 400 exactly for a bad code or neither field given; 404 exactly for a missing row; otherwise only the given fields change (null is stored as given), `endTime` is stamped exactly for `isCompleted: true`, a running clock is never reset and a stopped one starts when a question type is sent, and the remaining time is in [0, 12h]; `team_codes` and `team_submissions` never change |
| OnboardingSession.CompleteTwice | app/api/onboarding-session/route.ts:147-153 | marking completed twice succeeds both times, and the row stays completed; only `endTime` is stamped again |
| OnboardingSession.CompletionCanBeReverted | app/api/onboarding-session/route.ts:147-148 | `isCompleted: false` reopens a completed session |
| OnboardingSession.UpdateFields | app/api/onboarding-session/route.ts:139-157 | the fields built one by one, applied with `$set`, give exactly the row `UpdatedRow` describes |
| OnboardingSession.Put | app/api/onboarding-session/route.ts:139-190 | `updateFields` built field by field and applied in place gives exactly the reply and store of `UpdateSession` |
| OnboardingSession.CompleteWithSubmission | app/api/onboarding-session/route.ts:212-281 | 400 for a falsy code or a missing submission; 500 for a truthy non-string code; 404 without a session; 409 for a completed one, each writing nothing; otherwise exactly one record is appended to `submissions` and the session is marked completed with `endTime = now` |
| OnboardingSession.Patch | app/api/onboarding-session/route.ts:246-266 | `insertOne` then `updateOne` give exactly the reply and store of `CompleteWithSubmission` |
| Upload.FileRecords | app/api/upload/route.ts:21-34 | one stored record per uploaded file, in order, keeping name, type, size and lastModified, with the base64 text as content |
| Upload.FileNames | app/api/upload/route.ts:71 | `fileNames` lists the files' names, in order, with one entry per file |
| Upload.Summary | app/api/upload/route.ts:52-59 | the 409 metadata carries the stored id, code, question type, explanation and date, with `fileNames` defaulting to [] |
| Upload.UploadSubmission | app/api/upload/route.ts:4-92 | 400 exactly for a missing code or a NaN question type; 409 exactly when the lower-cased code already has a submission, returning that submission's metadata and writing nothing; otherwise exactly one document is appended (lower-cased code, explanation defaulting to "", files and names); the store invariant, so one submission per team, is kept |
| Upload.StoredNamesAreUploadedNames | app/api/upload/route.ts:71 | the stored file names are the uploaded files' names, in order |
| Upload.SecondUploadRefused | app/api/upload/route.ts:42-75 | after a successful upload, a second one for the same team in any letter case is refused with 409, describes the first one, and writes nothing |
| Upload.Upload | app/api/upload/route.ts:12-75 | the handler gives exactly the reply and store of `UploadSubmission` |
| TeamSubmission.NewDoc | app/api/team-submission/route.ts:81-88 | the inserted document: lower-cased code, explanation defaulting to "", the question type as sent (a multipart one that does not parse kept as NaN), files defaulting to [], names equal to the files' names; a JSON `submittedAt` used unless missing or falsy, otherwise `now` |
| TeamSubmission.CreateSubmission | app/api/team-submission/route.ts:5-100 | 400 exactly for a falsy code or an undefined or null question type (0 and NaN pass); 500 for a non-string code; 409 exactly on a duplicate lower-cased code, returning the stored document; 500 for a JSON `files` that is truthy but not an array, when there is no duplicate; refusals write nothing; otherwise one document is appended; invariant kept |
| TeamSubmission.UploadThenPostRefused | app/api/team-submission/route.ts:60-78 | after an upload, this route refuses the same team with the uploaded document and an unchanged store |
| TeamSubmission.Post | app/api/team-submission/route.ts:47-90 | the handler gives exactly the reply and store of `CreateSubmission` |
| TeamSubmission.Matching | app/api/team-submission/route.ts:122-124 | `find` keeps exactly the documents with the code |
| TeamSubmission.AtMostOneMatch | app/api/team-submission/route.ts:122-124 | with unique team codes, at most one document matches |
| TeamSubmission.Listings | app/api/team-submission/route.ts:132-149 | one listing per document, in order |
| TeamSubmission.ListSubmissions | app/api/team-submission/route.ts:103-158 | 400 exactly without a code; otherwise the projections of exactly the stored documents with the lower-cased code, in order, each carrying the document's id, code, question type, explanation and date; `files` appears exactly when `includeFileContent` is "true" and the document has files; `fileNames` defaults to [] |
| TeamSubmission.ListHasAtMostOne | app/api/team-submission/route.ts:122-149 | in a well-formed store the listing holds at most one submission |
| CheckSubmission.CheckSubmission | app/api/check-submission/route.ts:5-62 | 400 exactly without a code; 404 exactly without a session under the lower-cased code, even if a submission exists; otherwise `hasSubmission` holds exactly when a `team_submissions` document has the code; `hasFileContent` holds exactly when that document has non-empty `files` or `fileNames`; the session's flag (false when null) and its question type are echoed |
| ValidateTeamcode.ValidateTeamCode | app/api/validate-teamcode/route.ts:6-57 | 400 exactly for an empty or non-string code; 404 exactly for an unknown lower-cased code; otherwise valid, with the stored document, and `isRegistered` mirrors its flag |
| RegisterTeamCode.StripSymbols | app/api/register-team-code/route.ts:8 | the text never grows |
| RegisterTeamCode.StripSymbolsFacts | app/api/register-team-code/route.ts:8 | no `+`, `/` or `=` is left, every other character is kept, and a text without them is unchanged |
| RegisterTeamCode.GenerateTeamCode | app/api/register-team-code/route.ts:6-11 | a code has at most nine characters |
| RegisterTeamCode.GenerateTeamCodeFacts | app/api/register-team-code/route.ts:6-11 | a code has no symbol and no upper-case letter; it is the lower-cased stripped text cut to at most nine characters |
| RegisterTeamCode.CodesHaveAtMostSevenCharacters | app/api/register-team-code/route.ts:7-10 | five random bytes encode to eight characters ending in `=`, so a code has at most seven characters |
| RegisterTeamCode.FirstFreshCode | app/api/register-team-code/route.ts:56-68 | finds the first draw whose code has not been issued, with every earlier draw issued; none is found exactly when every draw is issued |
| RegisterTeamCode.PickUniqueCode | app/api/register-team-code/route.ts:56-72 | the loop makes between 1 and 10 attempts and stops at the first unissued code, which is `FirstFreshCode`'s; it fails only after ten collisions |
| RegisterTeamCode.FirstError | app/api/register-team-code/route.ts:19-38 | each error is reported exactly when the earlier checks pass and its own fails; no error means a name, a phone and a member list in which every member has all four details, so an empty list passes |
| RegisterTeamCode.AllMembersComplete | app/api/register-team-code/route.ts:32-38 | the loop reports true exactly when every member has name, e-mail, gender and food preference |
| RegisterTeamCode.CheckTeamData | app/api/register-team-code/route.ts:19-38 | the handler's checks, made in order, report exactly `FirstError` |
| RegisterTeamCode.CorrectedFirstError | app/api/register-team-code/route.ts:32-38 | the corrected member check: accepts exactly when name and phone are given and at least two members have all details; otherwise it reports the same error as the route or `MemberIncomplete` |
| RegisterTeamCode.CorrectedKeepsCompleteTeams | app/api/register-team-code/route.ts:32-38 | every team of two or more that the route accepts is still accepted by the corrected check |
| RegisterTeamCode.RegistrationKeepsWellFormed | app/api/register-team-code/route.ts:74-100 | storing the new code and the team it links to keeps the store well formed |
| RegisterTeamCode.RegisterWithCode | app/api/register-team-code/route.ts:14-116 | 400 carries the first failing check; 409 exactly for a taken name (exact match); 500 for missing data or ten collisions; refusals write nothing; on success the code is new, stored as registered, linked to the new team, the team stored with that code and status "registered", and returned; every earlier code is left as it was; the invariant is kept |
| RegisterTeamCode.SecondRegistrationRefused | app/api/register-team-code/route.ts:47-53 | after a successful registration the same team name is refused with 409 and no write, whatever the draws |
| RegisterTeamCode.Register | app/api/register-team-code/route.ts:16-107 | the handler, with its loop and its three writes, gives exactly the reply and store of `RegisterWithCode` |
| RegisterTeam.CompleteMembers | app/api/register-team/route.ts:88-90 | keeps exactly the complete members (trimmed name and e-mail non-empty, food choice given) |
| RegisterTeam.CompleteMembersOfConcat | app/api/register-team/route.ts:88-90 | the filter keeps members in their original relative order |
| RegisterTeam.CompleteMembersIdempotent | app/api/register-team/route.ts:88-90 | filtering again removes nothing |
| RegisterTeam.FirstError | app/api/register-team/route.ts:46-65 | the four checks in order, each reported exactly when the earlier ones pass; none when fewer than two complete members is also ruled out |
| RegisterTeam.NewTeam | app/api/register-team/route.ts:85-95 | the stored team has the submitted fields, exactly its complete members (at least two), no team code, and status "registered" |
| RegisterTeam.RegisterTeam | app/api/register-team/route.ts:41-111 | 500 for missing data; 400 with the first failing check; 409 exactly when the name or e-mail is taken; refusals write nothing; otherwise one team is appended |
| RegisterTeam.Post | app/api/register-team/route.ts:43-103 | the handler gives exactly the reply and store of `RegisterTeam` |
| RegisterTeam.SecondRegistrationRefused | app/api/register-team/route.ts:74-83 | after a successful registration, another with the same name or e-mail is refused with no write |
| RegisterTeam.SortNewestFirst | app/api/register-team/route.ts:15 | the sort keeps the number of teams |
| RegisterTeam.InsertByDateOrdered | app/api/register-team/route.ts:15 | inserting into a newest-first list keeps it newest first |
| RegisterTeam.InsertByDatePermutes | app/api/register-team/route.ts:15 | inserting adds exactly the one team, as a multiset |
| RegisterTeam.SortNewestFirstOrdered | app/api/register-team/route.ts:15 | the sorted teams are ordered by registration date, newest first |
| RegisterTeam.SortNewestFirstPermutes | app/api/register-team/route.ts:15 | the sorted teams are the stored teams, as a multiset |
| RegisterTeam.MemberNames | app/api/register-team/route.ts:26 | exactly the non-empty full names of the members |
| RegisterTeam.MemberNamesOfConcat | app/api/register-team/route.ts:26 | names keep the members' order |
| RegisterTeam.Summaries | app/api/register-team/route.ts:21-30 | one summary per team, in order |
| RegisterTeam.ListTeams | app/api/register-team/route.ts:4-39 | one summary per stored team, each of a stored team and every stored team listed, ordered by date non-increasing |
| ClientCommon.OrDefault | app/components/WelcomeScreen.tsx:230 | JavaScript's `or` on a message: the message when it is non-empty, otherwise the fallback |
| ClientCommon.JsRem | app/components/QuestionSelectionScreen.tsx:49-50 | JavaScript `%`: Dafny's remainder for a non-negative dividend, in (-b, 0] for a negative one |
| ClientCommon.PadStart2Facts | app/components/QuestionSelectionScreen.tsx:52 | padding keeps the text as a suffix and adds only zeros, up to two characters |
| ClientCommon.TwoDigitsFacts | app/components/QuestionSelectionScreen.tsx:52 | a displayed field is at least two decimal digits (exactly two below 100) and reads back as its number |
| ClientCommon.FormatTimeFields | app/components/QuestionSelectionScreen.tsx:46-53 | for a non-negative count the display is whole hours, the minute below 60 and the second below 60, each at least two digits, adding up to the whole seconds left |
| ClientCommon.FullSessionDisplay | app/components/SessionScreen.tsx:24-32 | a full session shows as "12:00:00" |
| RegistrationScreen.EmailPatternMeaning | app/components/RegistrationScreen.tsx:43-46 | the pattern accepts exactly the addresses with no white space, exactly one '@' with something before it, and after it a '.' that is neither first nor last |
| RegistrationScreen.EmailIssuesMeaning | app/components/RegistrationScreen.tsx:89-93 | one e-mail error per member with a filled but invalid address, in member order, and nothing else |
| RegistrationScreen.HeaderIssuesMeaning | app/components/RegistrationScreen.tsx:74-86 | each of the three checks before the loop adds its error exactly when it fails |
| RegistrationScreen.IssuesOfForm | app/components/RegistrationScreen.tsx:71-96 | every check contributes its error exactly when it fails, so all errors are collected |
| RegistrationScreen.ErrorsEmptyIffAcceptable | app/components/RegistrationScreen.tsx:71-96 | the list is empty exactly when the form is acceptable |
| RegistrationScreen.PushHeaderIssues | app/components/RegistrationScreen.tsx:72-86 | the three checks before the loop push exactly the header errors, in order |
| RegistrationScreen.ValidateRegistrationData | app/components/RegistrationScreen.tsx:71-96 | the pushes and the `forEach` build exactly the list of all errors |
| RegistrationScreen.UpdateMemberData | app/components/RegistrationScreen.tsx:62-69 | only the named field of the indexed member changes; other members and team fields stay |
| RegistrationScreen.HandleRegistrationSubmit | app/components/RegistrationScreen.tsx:134-153 | the request is sent exactly when the form is acceptable; otherwise nothing is sent and the message is the errors joined by ", ", which is never empty |
| RegistrationScreen.TwoCompleteAndBlankRowsRefused | app/api/register-team-code/route.ts:32-38 | the default four-row form with two complete members and two blank rows passes the client's validation and is refused by the route as having an incomplete member |
| RegistrationScreen.AcceptedFormPassesCorrectedCheck | app/components/RegistrationScreen.tsx:78-86 | every form the client accepts passes the corrected server check |
| RegistrationScreen.CompleteCountBound | app/components/RegistrationScreen.tsx:78-86 | a member the client counts as complete has all four details on the server side |
| WelcomeScreen.TimeOrFull | app/components/WelcomeScreen.tsx:192 | a zero count, being falsy, becomes the full session; any other count is kept |
| WelcomeScreen.HandleTeamCodeSubmit | app/components/WelcomeScreen.tsx:116-237 | a blank code shows an error and sends nothing; an invalid code shows its error; an unregistered code goes to registration; for a registered code, in order: validate, probe, then get the session; exactly one completion PUT is sent when there is a submission and the session is open; the panel shows exactly when the session is active or completed (submission counted); a completed one is never reported active; a zero count is shown and stored as 12 hours; otherwise question selection opens; a missing session is restarted with the full 12 hours |
| QuestionSelectionScreen.Steps | app/components/QuestionSelectionScreen.tsx:73-78 | two steps, the second "Team Registration", the first the chosen question's title or "Unknown" |
| QuestionSelectionScreen.StepsDistinguishQuestions | app/components/QuestionSelectionScreen.tsx:73-78 | the first step names a question exactly for 0, 1 or 2, and different questions give different steps |
| QuestionSelectionScreen.QuestionTypeText | app/components/QuestionSelectionScreen.tsx:330 | the form's question type is empty exactly when no type is selected |
| QuestionSelectionScreen.NextTime | app/components/QuestionSelectionScreen.tsx:219 | the next count is never negative, never above a non-negative previous one, and exactly one second less while a second is left |
| QuestionSelectionScreen.TickFacts | app/components/QuestionSelectionScreen.tsx:216-255 | the timeout branch never fires, so no completion PUT is sent; while open only the count and its display change; a completed session changes nothing |
| QuestionSelectionScreen.TicksRunDown | app/components/QuestionSelectionScreen.tsx:216-255 | `n` ticks of an open session take the count to `max(0, start - 1000 n)` and leave the session and file list alone |
| QuestionSelectionScreen.AddFiles | app/components/QuestionSelectionScreen.tsx:263-277 | picked files go after the listed ones, in order; without files nothing changes |
| QuestionSelectionScreen.SpliceOneInRange | app/components/QuestionSelectionScreen.tsx:283-287 | removing position i drops exactly that file and keeps the others in order |
| QuestionSelectionScreen.SpliceOneOutOfRange | app/components/QuestionSelectionScreen.tsx:283-287 | an index past the end removes nothing; a negative one counts from the end, or removes the first file when it reaches before the start |
| QuestionSelectionScreen.RemoveFile | app/components/QuestionSelectionScreen.tsx:283-287 | only the file list changes, and for an index in range it loses exactly that one file |
| QuestionSelectionScreen.AddThenRemoveLast | app/components/QuestionSelectionScreen.tsx:263-287 | adding files, then removing as many from the end, gives the screen back |
| QuestionSelectionScreen.MarkSubmitted | app/components/QuestionSelectionScreen.tsx:378-396 | the screen is submitted; a loaded session becomes that session with only `isCompleted` set; the parent receives it exactly when it passed `setSession` and a session is loaded; nothing else changes |
| QuestionSelectionScreen.LoadSessionFacts | app/components/QuestionSelectionScreen.tsx:131-206 | opening the screen sends the completion PUT exactly when a submission exists and the fetched session is open; it shows the fetched count, and it ends submitted when the session or the probe says completed |
| QuestionSelectionScreen.SubmitGuards | app/components/QuestionSelectionScreen.tsx:303-316 | already submitted, completed, without a code or without files: nothing is sent and only the loading flag changes, and only then |
| QuestionSelectionScreen.SubmitFacts | app/components/QuestionSelectionScreen.tsx:303-443 | past the guards, the upload is sent exactly once, first, with code, explanation, type and files; loading always ends; the screen ends submitted exactly when no alert is raised; the dialog opens exactly on an accepted upload whose PUT did not throw |
| QuestionSelectionScreen.SubmitOnce | app/components/QuestionSelectionScreen.tsx:306-316 | after a submit without alert, a second submit sends nothing |
| QuestionSelectionScreen.QuestionSelection.constructor | app/components/QuestionSelectionScreen.tsx:55-71 | the initial state values |
| QuestionSelectionScreen.QuestionSelection.OnLoad | app/components/QuestionSelectionScreen.tsx:132-203 | the in-place updates of `fetchSessionTime` give exactly `LoadSession` |
| QuestionSelectionScreen.QuestionSelection.OnTick | app/components/QuestionSelectionScreen.tsx:216-255 | one firing in place is exactly `Tick` |
| QuestionSelectionScreen.QuestionSelection.OnFilesPicked | app/components/QuestionSelectionScreen.tsx:263-277 | the list update in place is exactly `AddFiles` |
| QuestionSelectionScreen.QuestionSelection.OnRemoveFile | app/components/QuestionSelectionScreen.tsx:283-287 | the splice in place is exactly `RemoveFile` |
| QuestionSelectionScreen.QuestionSelection.SetExplanation | app/components/QuestionSelectionScreen.tsx:64 | only the explanation changes |
| QuestionSelectionScreen.QuestionSelection.MarkDone | app/components/QuestionSelectionScreen.tsx:378-396 | exactly `MarkSubmitted` |
| QuestionSelectionScreen.QuestionSelection.Recovered | app/components/QuestionSelectionScreen.tsx:402-441 | the `catch` branch is exactly `Recover` |
| QuestionSelectionScreen.QuestionSelection.OnRefused | app/components/QuestionSelectionScreen.tsx:374-401 | the refused branch is exactly `Refused` |
| QuestionSelectionScreen.QuestionSelection.OnAccepted | app/components/QuestionSelectionScreen.tsx:340-373 | the accepted branch is exactly `Accepted` |
| QuestionSelectionScreen.QuestionSelection.OnSubmit | app/components/QuestionSelectionScreen.tsx:303-443 | `handleSubmit` in place is exactly `Submit` |
| SessionScreen.Start | app/components/SessionScreen.tsx:47-52 | the screen shows the session's time, copies its completion flag and sets the interval |
| SessionScreen.TickFacts | app/components/SessionScreen.tsx:97-114 | a live tick takes off exactly 1000 and stops the interval at zero or below; nothing is taken off once the count is not positive or the session is completed; the flags never change |
| SessionScreen.StoppedStaysStopped | app/components/SessionScreen.tsx:98-101 | a cleared interval changes nothing more |
| SessionScreen.TicksWhileOpen | app/components/SessionScreen.tsx:104-113 | while time was left before each tick, `n` ticks take off exactly `n` seconds, and the interval runs exactly while time is left |
| SessionScreen.RunDown | app/components/SessionScreen.tsx:97-114 | an open session stops after `ceil(start / 1000)` ticks at a count in (-1000, 0], negative exactly when the start is not whole seconds; later ticks change nothing |
| SessionScreen.ReconcileFacts | app/components/SessionScreen.tsx:55-92 | the probe runs exactly for an open session with a code; a submission sends exactly one completion PUT and marks the screen complete; the session object is completed only when the PUT did not throw; the count is untouched |
| SessionScreen.ReconcileAndTick | app/components/SessionScreen.tsx:81-101 | once the session object is completed the next tick stops the interval; when the PUT threw, the countdown goes on, because the interval reads a stale `isSessionComplete` |
| SessionScreen.SessionTimer.constructor | app/components/SessionScreen.tsx:46-52 | the timer starts as `Start` |
| SessionScreen.SessionTimer.OnTick | app/components/SessionScreen.tsx:97-114 | the in-place decrement of `session.remainingTimeMs` is exactly `Tick` |
| SessionScreen.SessionTimer.OnCheckSubmission | app/components/SessionScreen.tsx:55-92 | `checkSubmission` in place is exactly `Reconcile` |
| Scenarios.IssuedCodeValidates | app/api/validate-teamcode/route.ts:23-47 | a code issued by register-team-code is already lower-case; typed in any letter case, the validator finds it registered and linked to the new team |
| Scenarios.SessionLifecycle | app/api/onboarding-session/route.ts:36-99 | a started session has the full 12 hours and is open; once marked completed, a POST within 12 hours is refused with 409 and no write, and a POST after them opens a fresh row |
| Scenarios.PatchInvisibleToProbe | app/api/check-submission/route.ts:36-49 | completing through PATCH leaves `team_submissions` and the probe's `hasSubmission` and `hasFileContent` unchanged |

## Left out

- HTTP, `fetch`, JSON and multipart parsing are left out; requests and responses are datatypes. A JSON field of an unexpected type is modelled for the team code (a string versus any other truthy value) and for team-submission's `files` (an array versus any other truthy value); other fields are typed as the screens send them.
- OnboardingSession.UpdateSession: `questionType` and `isCompleted` are modelled as numbers, booleans or null. The route stores any JSON value as sent. With `isCompleted: 1`, say, the value 1 would be stored; the next POST and check-submission would treat it as completed, but no `endTime` would be stamped. The model does not capture such values.
- `crypto.randomBytes` and the conversion of its bytes to base64 text, as RFC 4648 defines it in section 4, are calls into libraries outside this model. The caller supplies one base64 text per attempt (at least ten), and the model keeps only the sanitising transform.
- The system clock is left out; `now` is a parameter in milliseconds. A `Date` read from a null start time is 0.
- Races between a route's `findOne` and its `insertOne` are not modelled. Requests run one after another; the code has no lock or unique index, so no atomicity is claimed.
- The paths a sequential run cannot reach are not modelled: PUT's `matchedCount === 0` 404 and its missing-row 500 after the update (app/api/onboarding-session/route.ts:165-179), and every route's 500 for a database failure.
- `team_submissions` keeps insertion order, and `find` is modelled in that order. MongoDB's order among teams with equal dates after the sort is not modelled; the listing's order is stated only as non-increasing by date.
- Common.Lower: lower-cases ASCII letters only, because `toLowerCase` on other scripts needs Unicode case tables.
- ObjectIds are drawn from a counter, as fresh ids. Their text form and time stamp are not modelled.
- `formatFileSize` (floating-point logarithms), JSX rendering, the question texts and the dialog's redirect countdown are not modelled.
- lib/mongodb.ts, lib/mongodb.new.ts, lib/mongodb-health.ts, app/api/health/route.ts, app/admin/page.tsx, app/test.tsx and app/layout.tsx are connection plumbing, health probes or pages, and are not part of this model.
- RegisterTeam.RegisterTeam: the `submissions` field the legacy route stores beside the team is not modelled, since nothing reads it.
- RegistrationScreen.UpdateMemberData: requires an index inside the member list. The screen only passes indices of rendered rows; JavaScript would extend the array for any other index.
- RegistrationScreen.HandleRegistrationSubmit: models only the validation gate. What follows the request (storing the code, the delayed session start and the network error message, app/components/RegistrationScreen.tsx:155-213) is not modelled.
- WelcomeScreen.HandleTeamCodeSubmit: each response is an input, and a failed call is a missing response. The outer `catch` and its "Network error occurred" message, for a component that throws itself, are not modelled. `isCheckingCode` and the cleared `sessionInfo` are display state.
- QuestionSelectionScreen.QuestionSelection: `setInterval` scheduling, effect re-runs and React's batching are not modelled. Each firing is one explicit `OnTick` call, checked against the completion flag at that moment. The parent's `setSession` is recorded as the `reported` field, and `alert` as a returned message.
- QuestionSelectionScreen.Tick: the timeout completion branch is kept as written, but no input reaches it; the follow-up of its PUT is therefore not modelled.
- SessionScreen.SessionTimer: `seen` is the `isSessionComplete` value the interval's closure captured, fixed when the timer starts, standing for JavaScript's stale closure.
- RegisterTeamCode.RegisterWithCode: a draw made only of `+`, `/` and `=` would give the empty code. Five random bytes cannot produce one, but the model allows it because the draws are arbitrary; `Scenarios.IssuedCodeValidates` shows that the validator then refuses it with 400.
- Duplicate checks (team name, e-mail) are exact and case-sensitive, as the queries are; no normalisation is modelled.

## Findings

| source | as written | input that shows it | evidently intended | confidence | as-written member | corrected member |
|---|---|---|---|---|---|---|
| app/api/register-team-code/route.ts:32-38 | the route refuses a team as soon as any member row lacks a name, e-mail, gender or food preference, while the registration form (app/components/RegistrationScreen.tsx:78-86) asks only for at least two complete members and sends every row, blank ones included | the default form from app/page.tsx:46-55 with four member rows, two filled in completely and two left blank: the client accepts it, and the route answers 400 "All members must have complete information" | blank rows do not count against the team, and at least two members with all details are enough | medium, not executed | RegistrationScreen.TwoCompleteAndBlankRowsRefused | RegisterTeamCode.CorrectedFirstError |
