/** GET /api/check-submission: whether a team with a session has a stored
    submission, whether that submission carries files, and the session's
    completion state. */
module CheckSubmission {
  import opened Common
  import opened Store

  datatype CheckReply = CheckReply(
    status: int,
    hasSubmission: bool,
    hasFileContent: bool,
    sessionCompleted: bool,
    questionType: Option<int>)

  /** A stored submission has file content when its `files` or its
      `fileNames` is a non-empty array. */
  predicate HasFiles(d: SubmissionDoc)
  {
    (d.files.Some? && |d.files.value| > 0) || (d.fileNames.Some? && |d.fileNames.value| > 0)
  }

  /** 400 without a code, 404 when no session exists under the lower-cased
      code; otherwise the submission flags and the session's state. In a
      well-formed store the flags describe the team's only submission. */
  function CheckSubmission(s: DbState, teamCode: Option<string>): (r: CheckReply)
    ensures r.status in {200, 400, 404}
    ensures r.status == 400 <==> teamCode.None? || teamCode.value == ""
    ensures r.status == 404 <==> teamCode.Some? && teamCode.value != "" && Lower(teamCode.value) !in s.sessions
    ensures r.status != 200 ==> r == CheckReply(r.status, false, false, false, None)
    ensures r.status == 200 ==>
      var key := Lower(teamCode.value);
      && (r.hasSubmission <==> exists i :: 0 <= i < |s.teamSubmissions| && s.teamSubmissions[i].teamCode == key)
      && (r.hasFileContent ==> r.hasSubmission)
      && r.sessionCompleted == IsTrue(s.sessions[key].isCompleted)
      && r.questionType == s.sessions[key].questionType
    ensures r.status == 200 && WellFormed(s) ==>
      (r.hasFileContent <==>
        exists i :: 0 <= i < |s.teamSubmissions| && s.teamSubmissions[i].teamCode == Lower(teamCode.value)
          && HasFiles(s.teamSubmissions[i]))
  {
    if teamCode.None? || teamCode.value == "" then CheckReply(400, false, false, false, None)
    else
      var key := Lower(teamCode.value);
      if key !in s.sessions then CheckReply(404, false, false, false, None)
      else
        var row := s.sessions[key];
        var found := FindSubmission(s.teamSubmissions, key);
        var r := CheckReply(200, found.Some?, found.Some? && HasFiles(found.value), IsTrue(row.isCompleted), row.questionType);
        assert WellFormed(s) && found.Some? ==>
          forall i :: 0 <= i < |s.teamSubmissions| && s.teamSubmissions[i].teamCode == key ==>
            s.teamSubmissions[i] == found.value;
        r
  }
}
