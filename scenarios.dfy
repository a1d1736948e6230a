/** Properties that run across several routes: an issued code is accepted by
    the validator, a session's life from start to completion and expiry, and
    the two submission collections kept apart. */
module Scenarios {
  import opened Common
  import opened Store
  import RegisterTeamCode
  import ValidateTeamcode
  import OnboardingSession
  import CheckSubmission

  /** A code issued by the registration route is found by the validator as
      registered and linked to the new team, however its letters are cased when
      typed; the only exception is a draw made wholly of `+`, `/` and `=`,
      whose empty code the validator refuses with 400. */
  lemma IssuedCodeValidates(s: DbState, t: TeamData, draws: seq<string>, now: int, typed: string)
    requires WellFormed(s) && |draws| >= RegisterTeamCode.MaxAttempts
    requires RegisterTeamCode.RegisterWithCode(s, Some(t), draws, now).reply.status == 200
    requires Lower(typed) == RegisterTeamCode.RegisterWithCode(s, Some(t), draws, now).reply.teamCode.value
    ensures var out := RegisterTeamCode.RegisterWithCode(s, Some(t), draws, now);
      var code := out.reply.teamCode.value;
      var v := ValidateTeamcode.ValidateTeamCode(out.db, Text(typed));
      && Lower(code) == code
      && (code != "" ==> v.valid && v.isRegistered && v.teamCode.value.teamId == out.reply.teamId)
      && (code == "" ==> v.status == 400)
  {
    var out := RegisterTeamCode.RegisterWithCode(s, Some(t), draws, now);
    var code := out.reply.teamCode.value;
    RegisterTeamCode.GenerateTeamCodeFacts(draws[RegisterTeamCode.FirstFreshCode(s.teamCodes, draws, 0, RegisterTeamCode.MaxAttempts).value]);
    LowerFacts(code);
    if code == "" {
      assert |typed| == |Lower(typed)|;
    }
  }

  /** A registered team with no session starts one with a question: the row
      is new, the clock runs from `t0` with the full 12 hours, and it is not
      completed. Marking it completed and posting again within the 12 hours
      is refused with 409; posting after them replaces the completed row with
      a fresh open one. */
  lemma SessionLifecycle(s: DbState, code: string, q: int, t0: int, t1: int, t2: int)
    requires WellFormed(s) && code != ""
    requires IsRegisteredCode(s, Lower(code)) && Lower(code) !in s.sessions
    ensures var first := OnboardingSession.StartSession(s, Text(code), Present(q), false, t0);
      var row := first.db.sessions[Lower(code)];
      var done := OnboardingSession.UpdateSession(first.db, Text(code), Absent, Present(true), t1);
      var again := OnboardingSession.StartSession(done.db, Text(code), Null, false, t2);
      && first.reply.status == 200
      && first.reply.session.value.remainingTimeMs == SessionLengthMs
      && row.startTime == Some(t0) && row.isCompleted == Some(false)
      && done.reply.status == 200
      && done.db.sessions[Lower(code)].isCompleted == Some(true)
      && done.db.sessions[Lower(code)].endTime == Some(t1)
      && (t2 - t0 <= SessionLengthMs ==> again.reply.status == 409 && again.db == done.db)
      && (t2 - t0 > SessionLengthMs ==>
           && again.reply.status == 200
           && again.db.sessions[Lower(code)].isCompleted == Some(false)
           && again.db.sessions[Lower(code)].startTime.None?)
  {
    var first := OnboardingSession.StartSession(s, Text(code), Present(q), false, t0);
    var key := Lower(code);
    assert OnboardingSession.Key(Text(code)) == key;
    assert !OnboardingSession.KeepsExisting(s, key, false, t0);
    var done := OnboardingSession.UpdateSession(first.db, Text(code), Absent, Present(true), t1);
    assert done.db.teamCodes == first.db.teamCodes;
    assert first.db.teamCodes == s.teamCodes;
    var row := done.db.sessions[key];
    assert row.startTime == Some(t0);
    assert OnboardingSession.WithinWindow(row, t2) <==> t2 - t0 <= SessionLengthMs;
  }

  /** Closing a session through PATCH writes only to `submissions`, so the
      submission probe answers exactly as before: a team that completed this
      way still has no submission in `team_submissions`. */
  lemma PatchInvisibleToProbe(s: DbState, code: string, submission: string, now: int)
    requires WellFormed(s) && code != ""
    ensures var after := OnboardingSession.CompleteWithSubmission(s, Text(code), Some(submission), now).db;
      var before := CheckSubmission.CheckSubmission(s, Some(code));
      var probe := CheckSubmission.CheckSubmission(after, Some(code));
      && probe.hasSubmission == before.hasSubmission
      && probe.hasFileContent == before.hasFileContent
      && after.teamSubmissions == s.teamSubmissions
  {
    var out := OnboardingSession.CompleteWithSubmission(s, Text(code), Some(submission), now);
    assert out.db.teamSubmissions == s.teamSubmissions;
    assert Lower(code) in s.sessions <==> Lower(code) in out.db.sessions;
  }
}
