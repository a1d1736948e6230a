/** /api/onboarding-session: start, resume or restart a team's 12-hour session
    (POST), record the chosen question or the completion flag (PUT), and complete
    the session by submitting (PATCH). The wall clock is the parameter `now`, in
    milliseconds since the epoch. */
module OnboardingSession {
  import opened Common
  import opened Store

  /** A session as the handlers return it: the stored row with the remaining time. */
  datatype SessionView = SessionView(row: SessionDoc, remainingTimeMs: int)

  datatype SessionReply = SessionReply(status: int, session: Option<SessionView>)

  /** `new Date(startTime).getTime()`: a null start time reads as the epoch. */
  function StartMillis(startTime: Option<int>): int
  {
    match startTime
    case None => 0
    case Some(t) => t
  }

  /** The lower-cased team code every lookup uses. */
  function Key(teamCode: Arg): string
    requires teamCode.Text?
  {
    Lower(teamCode.s)
  }

  /** `hoursDifference <= 12`: at most 12 hours since the stored start time, a
      null start time counting as the epoch. */
  predicate WithinWindow(row: SessionDoc, now: int)
  {
    now - StartMillis(row.startTime) <= SessionLengthMs
  }

  /** The remaining time reported for a session: the full 12 hours while the
      clock has not started, otherwise what is left of them, never below zero. */
  function RemainingTime(startTime: Option<int>, now: int): (r: int)
    ensures 0 <= r
    ensures startTime.None? ==> r == SessionLengthMs
    ensures startTime.Some? && startTime.value <= now ==> r <= SessionLengthMs
    ensures startTime.Some? ==> (r == 0 <==> now - startTime.value >= SessionLengthMs)
    ensures startTime.Some? && r > 0 ==> r + (now - startTime.value) == SessionLengthMs
  {
    match startTime
    case None => SessionLengthMs
    case Some(t) => Max(0, SessionLengthMs - (now - t))
  }

  /** While the clock runs, the remaining time never grows as time passes. */
  lemma RemainingTimeNonIncreasing(startTime: Option<int>, now: int, later: int)
    requires now <= later
    ensures RemainingTime(startTime, later) <= RemainingTime(startTime, now)
  {
  }

  /** `questionType || null`: a missing, null or zero question type is stored as null. */
  function QuestionOrNull(questionType: Field<int>): Option<int>
  {
    if questionType.Present? && questionType.value != 0 then Some(questionType.value) else None
  }

  /** The row POST inserts. The clock starts unless the question type was
      explicitly null (`questionType !== null`), so a missing field starts it. */
  function FreshRow(id: nat, key: string, teamId: Option<nat>, questionType: Field<int>, now: int): SessionDoc
  {
    SessionDoc(id, key, teamId, QuestionOrNull(questionType),
               if questionType.Null? then None else Some(now), None, Some(false))
  }

  /** POST keeps the existing row (returning or refusing it) instead of replacing it. */
  predicate KeepsExisting(s: DbState, key: string, forceRestart: bool, now: int)
  {
    key in s.sessions && !forceRestart && WithinWindow(s.sessions[key], now)
  }

  /** POST /api/onboarding-session. */
  function StartSession(s: DbState, teamCode: Arg, questionType: Field<int>, forceRestart: bool, now: int): (out: Step<SessionReply>)
    requires WellFormed(s)
    ensures WellFormed(out.db)
    ensures out.reply.status in {200, 400, 404, 409}
    ensures out.reply.status == 400 <==> !IsNonEmptyText(teamCode)
    ensures out.reply.status == 404 <==> IsNonEmptyText(teamCode) && !IsRegisteredCode(s, Key(teamCode))
    ensures out.reply.status == 409 <==>
              && IsNonEmptyText(teamCode) && IsRegisteredCode(s, Key(teamCode))
              && KeepsExisting(s, Key(teamCode), forceRestart, now)
              && IsTrue(s.sessions[Key(teamCode)].isCompleted)
    ensures out.reply.status != 200 ==> out.db == s && out.reply.session.None?
    ensures out.reply.status == 200 ==>
              && out.reply.session.Some?
              && 0 <= out.reply.session.value.remainingTimeMs
              && out.reply.session.value.row.teamCode == Key(teamCode)
              && Key(teamCode) in out.db.sessions
              && out.db.sessions[Key(teamCode)] == out.reply.session.value.row
    // Resuming: the same row, untouched, with what is left of the 12 hours.
    ensures out.reply.status == 200 && KeepsExisting(s, Key(teamCode), forceRestart, now) ==>
              && out.db == s
              && out.reply.session == Some(SessionView(s.sessions[Key(teamCode)],
                                                       RemainingTime(s.sessions[Key(teamCode)].startTime, now)))
    // Creating: any old row goes, exactly one fresh row takes its place.
    ensures out.reply.status == 200 && !KeepsExisting(s, Key(teamCode), forceRestart, now) ==>
              && out.reply.session == Some(SessionView(
                   FreshRow(s.nextId, Key(teamCode), s.teamCodes[Key(teamCode)].teamId, questionType, now),
                   SessionLengthMs))
              && out.db == s.(sessions := s.sessions[Key(teamCode) := out.reply.session.value.row],
                              nextId := s.nextId + 1)
  {
    if !IsNonEmptyText(teamCode) then Step(SessionReply(400, None), s)
    else
      var key := Key(teamCode);
      LowerFacts(teamCode.s);
      if !IsRegisteredCode(s, key) then Step(SessionReply(404, None), s)
      else if KeepsExisting(s, key, forceRestart, now) then
        var row := s.sessions[key];
        if IsTrue(row.isCompleted) then Step(SessionReply(409, None), s)
        else Step(SessionReply(200, Some(SessionView(row, RemainingTime(row.startTime, now)))), s)
      else
        var row := FreshRow(s.nextId, key, s.teamCodes[key].teamId, questionType, now);
        Step(SessionReply(200, Some(SessionView(row, SessionLengthMs))),
             s.(sessions := s.sessions[key := row], nextId := s.nextId + 1))
  }

  /** A session still waiting for its question has a null start time, which
      reads as the epoch: once more than 12 hours have passed since 1970 the
      next POST replaces it with a fresh row, even if it was completed. */
  lemma PendingSessionIsReplaced(s: DbState, teamCode: Arg, questionType: Field<int>, now: int)
    requires WellFormed(s)
    requires IsNonEmptyText(teamCode) && IsRegisteredCode(s, Key(teamCode))
    requires Key(teamCode) in s.sessions && s.sessions[Key(teamCode)].startTime.None?
    requires now > SessionLengthMs
    ensures StartSession(s, teamCode, questionType, false, now).reply.status == 200
    ensures StartSession(s, teamCode, questionType, false, now).db.sessions[Key(teamCode)]
            == FreshRow(s.nextId, Key(teamCode), s.teamCodes[Key(teamCode)].teamId, questionType, now)
  {
  }

  /** POST /api/onboarding-session, as the handler runs it: look up, branch,
      then `deleteOne` and `insertOne`. */
  method Post(db: Database, teamCode: Arg, questionType: Field<int>, forceRestart: bool, now: int)
    returns (reply: SessionReply)
    requires db.Valid()
    modifies db
    ensures db.Valid()
    ensures Step(reply, db.State()) == StartSession(old(db.State()), teamCode, questionType, forceRestart, now)
  {
    ghost var s0 := db.State();
    if !(teamCode.Text? && teamCode.s != "") {
      return SessionReply(400, None);
    }
    var key := Lower(teamCode.s);
    assert key == Key(teamCode);
    if !(key in db.teamCodes && db.teamCodes[key].isRegistered) {
      return SessionReply(404, None);
    }
    var codeDoc := db.teamCodes[key];
    if key in db.sessions && !forceRestart {
      var existing := db.sessions[key];
      var elapsed := now - StartMillis(existing.startTime);
      if elapsed <= SessionLengthMs {
        assert KeepsExisting(s0, key, forceRestart, now);
        if existing.isCompleted == Some(true) {
          return SessionReply(409, None);
        }
        var remaining := SessionLengthMs;
        if existing.startTime.Some? {
          remaining := Max(0, SessionLengthMs - elapsed);
        }
        assert remaining == RemainingTime(existing.startTime, now);
        return SessionReply(200, Some(SessionView(existing, remaining)));
      }
    }
    assert !KeepsExisting(s0, key, forceRestart, now);
    var row := ReplaceSession(db, key, codeDoc.teamId, questionType, now);
    reply := SessionReply(200, Some(SessionView(row, SessionLengthMs)));
  }

  /** `deleteOne({ teamCode })` then `insertOne`: the team's old row, if any,
      is gone and the fresh one stands under the same key with a new id. */
  method ReplaceSession(db: Database, key: string, teamId: Option<nat>, questionType: Field<int>, now: int)
    returns (row: SessionDoc)
    modifies db
    ensures row == FreshRow(old(db.nextId), key, teamId, questionType, now)
    ensures db.State() == old(db.State()).(sessions := old(db.sessions)[key := row], nextId := old(db.nextId) + 1)
  {
    ghost var s0 := db.State();
    if key in db.sessions {
      db.sessions := db.sessions - {key};
    }
    var id := db.NewId();
    row := FreshRow(id, key, teamId, questionType, now);
    db.sessions := db.sessions[key := row];
    assert db.sessions == s0.sessions[key := row];
  }

  /** The stored row after PUT's `$set`. */
  function UpdatedRow(row: SessionDoc, questionType: Field<int>, isCompleted: Field<bool>, now: int): SessionDoc
  {
    row.(questionType := match questionType
                         case Absent => row.questionType
                         case Null => None
                         case Present(q) => Some(q),
         isCompleted := match isCompleted
                        case Absent => row.isCompleted
                        case Null => None
                        case Present(b) => Some(b),
         endTime := if isCompleted == Present(true) then Some(now) else row.endTime,
         startTime := if row.startTime.None? && !questionType.Absent? then Some(now) else row.startTime)
  }

  /** PUT /api/onboarding-session. */
  function UpdateSession(s: DbState, teamCode: Arg, questionType: Field<int>, isCompleted: Field<bool>, now: int)
    : (out: Step<SessionReply>)
    requires WellFormed(s)
    ensures WellFormed(out.db)
    ensures out.db.teamCodes == s.teamCodes && out.db.teamSubmissions == s.teamSubmissions
    ensures out.reply.status in {200, 400, 404}
    ensures out.reply.status == 400 <==> !IsNonEmptyText(teamCode) || (questionType.Absent? && isCompleted.Absent?)
    ensures out.reply.status == 404 <==>
              IsNonEmptyText(teamCode) && !(questionType.Absent? && isCompleted.Absent?) && Key(teamCode) !in s.sessions
    ensures out.reply.status != 200 ==> out.db == s && out.reply.session.None?
    ensures out.reply.status == 200 ==> out.reply.session.Some?
    ensures out.reply.status == 200 ==>
              var old_ := s.sessions[Key(teamCode)];
              var new_ := out.reply.session.value.row;
              && out.db == s.(sessions := s.sessions[Key(teamCode) := new_])
              // only the fields the request names change
              && new_.id == old_.id && new_.teamCode == old_.teamCode && new_.teamId == old_.teamId
              && (questionType.Absent? ==> new_.questionType == old_.questionType)
              && (questionType.Present? ==> new_.questionType == Some(questionType.value))
              && (questionType.Null? ==> new_.questionType.None?)
              && (isCompleted.Absent? ==> new_.isCompleted == old_.isCompleted)
              && (isCompleted.Present? ==> new_.isCompleted == Some(isCompleted.value))
              && (isCompleted.Null? ==> new_.isCompleted.None?)
              && new_.endTime == (if isCompleted == Present(true) then Some(now) else old_.endTime)
              // a running clock is never reset; a stopped one starts when a question type is sent
              && (old_.startTime.Some? ==> new_.startTime == old_.startTime)
              && (old_.startTime.None? ==> new_.startTime == if questionType.Absent? then None else Some(now))
              && out.reply.session.value.remainingTimeMs == RemainingTime(new_.startTime, now)
              && 0 <= out.reply.session.value.remainingTimeMs
              && (new_.startTime.Some? && new_.startTime.value <= now ==> out.reply.session.value.remainingTimeMs <= SessionLengthMs)
  {
    if !IsNonEmptyText(teamCode) || (questionType.Absent? && isCompleted.Absent?) then Step(SessionReply(400, None), s)
    else
      var key := Key(teamCode);
      if key !in s.sessions then Step(SessionReply(404, None), s)
      else
        var row := UpdatedRow(s.sessions[key], questionType, isCompleted, now);
        Step(SessionReply(200, Some(SessionView(row, RemainingTime(row.startTime, now)))),
             s.(sessions := s.sessions[key := row]))
  }

  /** Marking a session completed is idempotent apart from the end time: the
      second call also succeeds, the row stays completed, and only `endTime`
      is stamped again. */
  lemma CompleteTwice(s: DbState, teamCode: Arg, t1: int, t2: int)
    requires WellFormed(s)
    requires IsNonEmptyText(teamCode) && Key(teamCode) in s.sessions
    ensures var first := UpdateSession(s, teamCode, Absent, Present(true), t1);
            var second := UpdateSession(first.db, teamCode, Absent, Present(true), t2);
            && first.reply.status == 200 && second.reply.status == 200
            && IsTrue(second.db.sessions[Key(teamCode)].isCompleted)
            && second.db.sessions[Key(teamCode)]
               == first.db.sessions[Key(teamCode)].(endTime := Some(t2))
  {
  }

  /** Sending `isCompleted: false` takes a completed session back to not completed. */
  lemma CompletionCanBeReverted(s: DbState, teamCode: Arg, now: int)
    requires WellFormed(s)
    requires IsNonEmptyText(teamCode) && Key(teamCode) in s.sessions
    requires IsTrue(s.sessions[Key(teamCode)].isCompleted)
    ensures !IsTrue(UpdateSession(s, teamCode, Absent, Present(false), now).db.sessions[Key(teamCode)].isCompleted)
  {
  }

  /** The fields of PUT's `$set`, each present only when the handler sets it. */
  datatype SetFields = SetFields(
    questionType: Option<Option<int>>,
    isCompleted: Option<Option<bool>>,
    endTime: Option<int>,
    startTime: Option<int>)

  function ApplySet(row: SessionDoc, f: SetFields): SessionDoc
  {
    row.(questionType := if f.questionType.Some? then f.questionType.value else row.questionType,
         isCompleted := if f.isCompleted.Some? then f.isCompleted.value else row.isCompleted,
         endTime := if f.endTime.Some? then Some(f.endTime.value) else row.endTime,
         startTime := if f.startTime.Some? then Some(f.startTime.value) else row.startTime)
  }

  /** `updateFields`, built field by field: applied with `$set` it makes
      exactly the row `UpdatedRow` describes. */
  method UpdateFields(existing: SessionDoc, questionType: Field<int>, isCompleted: Field<bool>, now: int)
    returns (fields: SetFields)
    ensures ApplySet(existing, fields) == UpdatedRow(existing, questionType, isCompleted, now)
  {
    fields := SetFields(None, None, None, None);
    if !questionType.Absent? {
      fields := fields.(questionType := Some(if questionType.Null? then None else Some(questionType.value)));
    }
    if !isCompleted.Absent? {
      fields := fields.(isCompleted := Some(if isCompleted.Null? then None else Some(isCompleted.value)));
      if isCompleted == Present(true) {
        fields := fields.(endTime := Some(now));
      }
    }
    if existing.startTime.None? && !questionType.Absent? {
      fields := fields.(startTime := Some(now));
    }
  }

  /** PUT /api/onboarding-session, as the handler runs it: `updateFields` is
      built field by field and applied with `updateOne`. */
  method Put(db: Database, teamCode: Arg, questionType: Field<int>, isCompleted: Field<bool>, now: int)
    returns (reply: SessionReply)
    requires db.Valid()
    modifies db
    ensures db.Valid()
    ensures Step(reply, db.State()) == UpdateSession(old(db.State()), teamCode, questionType, isCompleted, now)
  {
    if !(teamCode.Text? && teamCode.s != "") || (questionType.Absent? && isCompleted.Absent?) {
      return SessionReply(400, None);
    }
    var key := Lower(teamCode.s);
    if key !in db.sessions {
      return SessionReply(404, None);
    }
    var existing := db.sessions[key];
    var fields := UpdateFields(existing, questionType, isCompleted, now);
    var updated := ApplySet(existing, fields);
    ghost var expected := UpdateSession(db.State(), teamCode, questionType, isCompleted, now);
    db.sessions := db.sessions[key := updated];
    assert db.State() == expected.db;
    var remaining := SessionLengthMs;
    if updated.startTime.Some? {
      remaining := Max(0, SessionLengthMs - (now - updated.startTime.value));
    }
    reply := SessionReply(200, Some(SessionView(updated, remaining)));
  }

  /** PATCH /api/onboarding-session. The status is the whole reply. `submission`
      is None when the body's field is falsy; otherwise its content is opaque
      text. A team code that is truthy but not a string makes `toLowerCase`
      throw: status 500. */
  function CompleteWithSubmission(s: DbState, teamCode: Arg, submission: Option<string>, now: int): (out: Step<int>)
    requires WellFormed(s)
    ensures WellFormed(out.db)
    ensures out.reply in {200, 400, 404, 409, 500}
    ensures out.reply == 400 <==> !Truthy(teamCode) || submission.None?
    ensures out.reply == 500 <==> Truthy(teamCode) && submission.Some? && teamCode.NonText?
    ensures out.reply == 404 <==> IsNonEmptyText(teamCode) && submission.Some? && Key(teamCode) !in s.sessions
    ensures out.reply == 409 <==>
              IsNonEmptyText(teamCode) && submission.Some? && Key(teamCode) in s.sessions
              && IsTrue(s.sessions[Key(teamCode)].isCompleted)
    ensures out.reply != 200 ==> out.db == s
    ensures out.reply == 200 ==>
              var row := s.sessions[Key(teamCode)];
              out.db == s.(submissions := s.submissions + [CompletionDoc(s.nextId, Key(teamCode), row.teamId, row.questionType, submission.value, now)],
                           sessions := s.sessions[Key(teamCode) := row.(isCompleted := Some(true), endTime := Some(now))],
                           nextId := s.nextId + 1)
  {
    if !Truthy(teamCode) || submission.None? then Step(400, s)
    else if teamCode.NonText? then Step(500, s)
    else
      var key := Key(teamCode);
      if key !in s.sessions then Step(404, s)
      else
        var row := s.sessions[key];
        if IsTrue(row.isCompleted) then Step(409, s)
        else
          Step(200, s.(submissions := s.submissions + [CompletionDoc(s.nextId, key, row.teamId, row.questionType, submission.value, now)],
                       sessions := s.sessions[key := row.(isCompleted := Some(true), endTime := Some(now))],
                       nextId := s.nextId + 1))
  }

  /** PATCH /api/onboarding-session, as the handler runs it: `insertOne` into
      `submissions`, then `updateOne` on the session. */
  method Patch(db: Database, teamCode: Arg, submission: Option<string>, now: int) returns (status: int)
    requires db.Valid()
    modifies db
    ensures db.Valid()
    ensures Step(status, db.State()) == CompleteWithSubmission(old(db.State()), teamCode, submission, now)
  {
    if !Truthy(teamCode) || submission.None? {
      return 400;
    }
    if !teamCode.Text? {
      return 500;
    }
    var key := Lower(teamCode.s);
    if key !in db.sessions {
      return 404;
    }
    var session := db.sessions[key];
    if session.isCompleted == Some(true) {
      return 409;
    }
    var id := db.NewId();
    db.submissions := db.submissions + [CompletionDoc(id, key, session.teamId, session.questionType, submission.value, now)];
    db.sessions := db.sessions[key := session.(isCompleted := Some(true), endTime := Some(now))];
    status := 200;
  }
}
