/** The decision steps of the welcome form: validate the code, then for a
    registered team probe for a submission, get or start its session, close a
    session that already has a submission, and choose between the information
    panel, question selection and registration. Every response is an input. */
module WelcomeScreen {
  import opened Common
  import opened ClientCommon

  /** What `validateTeamCode` hands back; a failed fetch is `valid: false`. */
  datatype Validation = Validation(valid: bool, isRegistered: bool, error: Option<string>)

  /** The responses the handler awaits, in order. A failed or unsuccessful
      call is `None`; `hasSubmission` is `success && hasSubmission` of the
      probe, false when the probe fails. */
  datatype Responses = Responses(
    validation: Validation,
    hasSubmission: bool,
    session: Option<ClientSession>,
    updated: Option<ClientSession>,
    restarted: Option<ClientSession>,
    restartError: Option<string>)

  datatype Screen = Welcome | Registration | QuestionSelection

  datatype SessionInfo = SessionInfo(hasActiveSession: bool, sessionTimeRemaining: int, questionType: Option<int>,
    sessionCompleted: bool)

  /** What the handler leaves behind: the error shown, the requests sent in
      order, the screen, whether the code was marked valid, the panel and the
      stored session. */
  datatype Outcome = Outcome(error: string, sent: seq<Request>, screen: Screen, codeValid: bool,
    info: Option<SessionInfo>, session: Option<ClientSession>)

  /** `remainingTimeMs || 12h`: a zero count stands for a full session. */
  function TimeOrFull(ms: int): (r: int)
    ensures r != 0
    ensures ms != 0 ==> r == ms
    ensures ms == 0 ==> r == SessionLengthMs
  {
    if ms != 0 then ms else SessionLengthMs
  }

  /** A session counts as running when it has a question, a start time and
      time left. */
  predicate HasActiveSession(u: ClientSession)
  {
    u.questionType.Some? && u.startTime.Some? && u.remainingTimeMs > 0
  }

  /** The session after the completion PUT: its reply when the PUT was sent
      and succeeded, otherwise the session as fetched. */
  function AfterUpdate(s: ClientSession, hasSubmission: bool, updated: Option<ClientSession>): ClientSession
  {
    if hasSubmission && !s.isCompleted && updated.Some? then updated.value else s
  }

  function UpdateCount(rs: seq<Request>): (n: nat)
    ensures n <= |rs|
  {
    if rs == [] then 0 else (if rs[0].UpdateSession? then 1 else 0) + UpdateCount(rs[1..])
  }

  lemma UpdateCountOfAppend(rs: seq<Request>, r: Request)
    ensures UpdateCount(rs + [r]) == UpdateCount(rs) + (if r.UpdateSession? then 1 else 0)
  {
    if rs != [] {
      assert (rs + [r])[1..] == rs[1..] + [r];
      UpdateCountOfAppend(rs[1..], r);
    }
  }

  /** `handleTeamCodeSubmit`, step by step. */
  method HandleTeamCodeSubmit(teamCode: string, responses: Responses) returns (out: Outcome)
    ensures IsBlank(teamCode) ==> out == Outcome("Please enter a team code", [], Welcome, false, None, None)
    ensures !IsBlank(teamCode) ==> |out.sent| >= 1 && out.sent[0] == ValidateCode(Trim(teamCode))
    ensures !IsBlank(teamCode) && !responses.validation.valid ==>
      out == Outcome(OrDefault(responses.validation.error, "Invalid team code"), [ValidateCode(Trim(teamCode))],
        Welcome, false, None, None)
    ensures !IsBlank(teamCode) && responses.validation.valid && !responses.validation.isRegistered ==>
      out == Outcome("", [ValidateCode(Trim(teamCode))], Registration, true, None, None)
    ensures !IsBlank(teamCode) && responses.validation.valid && responses.validation.isRegistered ==>
      var code := Trim(teamCode);
      && out.codeValid
      && |out.sent| >= 3
      && out.sent[..3] == [ValidateCode(code), CheckSubmission(code), StartSession(code, None, false)]
      && match responses.session
         case Some(s) =>
           var closing := responses.hasSubmission && !s.isCompleted;
           var u := AfterUpdate(s, responses.hasSubmission, responses.updated);
           var active := HasActiveSession(u);
           var completed := u.isCompleted || responses.hasSubmission;
           && UpdateCount(out.sent) == (if closing then 1 else 0)
           && |out.sent| == (if closing then 4 else 3)
           && (closing ==> out.sent[3] == UpdateSession(code, Absent, true))
           && out.error == ""
           && (out.info.Some? <==> active || completed)
           && (out.screen == QuestionSelection <==> !(active || completed))
           && (out.screen != QuestionSelection ==> out.screen == Welcome)
           && (out.info.Some? ==>
                && out.info.value == SessionInfo(active && !completed, TimeOrFull(u.remainingTimeMs), u.questionType, completed)
                && out.session == Some(u.(isCompleted := completed, remainingTimeMs := TimeOrFull(u.remainingTimeMs))))
           && (out.info.None? ==> out.session == Some(s))
         case None =>
           && out.sent == [ValidateCode(code), CheckSubmission(code), StartSession(code, None, false),
                           StartSession(code, None, true)]
           && out.info.None?
           && (responses.restarted.Some? ==>
                && out.screen == QuestionSelection && out.error == ""
                && out.session == Some(responses.restarted.value.(remainingTimeMs := SessionLengthMs)))
           && (responses.restarted.None? ==>
                && out.screen == Welcome && out.session.None?
                && out.error == OrDefault(responses.restartError, "Failed to start session"))
  {
    if IsBlank(teamCode) {
      return Outcome("Please enter a team code", [], Welcome, false, None, None);
    }
    var code := Trim(teamCode);
    var sent := [ValidateCode(code)];
    UpdateCountOfAppend([], ValidateCode(code));
    var validationResult := responses.validation;
    if !validationResult.valid {
      return Outcome(OrDefault(validationResult.error, "Invalid team code"), sent, Welcome, false, None, None);
    }
    if !validationResult.isRegistered {
      return Outcome("", sent, Registration, true, None, None);
    }
    var hasSubmission := false;
    UpdateCountOfAppend(sent, CheckSubmission(code));
    sent := sent + [CheckSubmission(code)];
    if responses.hasSubmission {
      hasSubmission := true;
    }
    UpdateCountOfAppend(sent, StartSession(code, None, false));
    sent := sent + [StartSession(code, None, false)];
    var sessionResult := responses.session;
    if sessionResult.Some? {
      var updatedSession := sessionResult.value;
      if hasSubmission && !sessionResult.value.isCompleted {
        UpdateCountOfAppend(sent, UpdateSession(code, Absent, true));
        sent := sent + [UpdateSession(code, Absent, true)];
        if responses.updated.Some? {
          updatedSession := responses.updated.value;
        }
      }
      var hasStartTime := updatedSession.startTime.Some?;
      var hasActiveSession := updatedSession.questionType.Some? && hasStartTime && updatedSession.remainingTimeMs > 0;
      var isCompleted := updatedSession.isCompleted || hasSubmission;
      if hasActiveSession || isCompleted {
        var time := TimeOrFull(updatedSession.remainingTimeMs);
        var info := SessionInfo(hasActiveSession && !isCompleted, time, updatedSession.questionType, isCompleted);
        var stored := updatedSession.(isCompleted := isCompleted, remainingTimeMs := time);
        return Outcome("", sent, Welcome, true, Some(info), Some(stored));
      } else {
        return Outcome("", sent, QuestionSelection, true, None, sessionResult);
      }
    } else {
      sent := sent + [StartSession(code, None, true)];
      var newSessionResult := responses.restarted;
      if newSessionResult.Some? {
        var restartedSession := newSessionResult.value.(remainingTimeMs := SessionLengthMs);
        return Outcome("", sent, QuestionSelection, true, None, Some(restartedSession));
      } else {
        return Outcome(OrDefault(responses.restartError, "Failed to start session"), sent, Welcome, true, None, None);
      }
    }
  }
}
