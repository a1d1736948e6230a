/** POST /api/validate-teamcode: whether a code was issued and whether its team
    has registered. */
module ValidateTeamcode {
  import opened Common
  import opened Store

  datatype ValidateReply = ValidateReply(status: int, valid: bool, isRegistered: bool, teamCode: Option<TeamCodeDoc>)

  /** 400 unless the code is a non-empty string, 404 when no `team_codes`
      document has the lower-cased code, otherwise valid with that document
      and its registration flag. */
  function ValidateTeamCode(s: DbState, teamCode: Arg): (r: ValidateReply)
    ensures r.status in {200, 400, 404}
    ensures r.valid <==> r.status == 200
    ensures r.status == 400 <==> !IsNonEmptyText(teamCode)
    ensures r.status == 404 <==> IsNonEmptyText(teamCode) && Lower(teamCode.s) !in s.teamCodes
    ensures r.teamCode.Some? <==> r.valid
    ensures r.valid ==> r.teamCode == Some(s.teamCodes[Lower(teamCode.s)])
    ensures r.isRegistered <==> IsNonEmptyText(teamCode) && IsRegisteredCode(s, Lower(teamCode.s))
  {
    if !IsNonEmptyText(teamCode) then ValidateReply(400, false, false, None)
    else
      var key := Lower(teamCode.s);
      if key !in s.teamCodes then ValidateReply(404, false, false, None)
      else ValidateReply(200, true, s.teamCodes[key].isRegistered, Some(s.teamCodes[key]))
  }
}
