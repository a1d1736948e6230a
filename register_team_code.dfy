/** POST /api/register-team-code: validates a team, refuses a duplicate name,
    draws a team code not yet issued (at most ten tries) and stores the code
    and the team, linking the two. */
module RegisterTeamCode {
  import opened Common
  import opened Store

  /** The number of codes the route tries before giving up. */
  const MaxAttempts: nat := 10

  /** The number of characters a code is cut to. */
  const CodeLength: nat := 9

  predicate IsBase64Symbol(c: char)
  {
    c == '+' || c == '/' || c == '='
  }

  /** `replace(/[+/=]/g, '')`: the text with every `+`, `/` and `=` removed and
      every other character kept, in order. */
  function StripSymbols(s: string): (r: string)
    ensures |r| <= |s|
  {
    if s == [] then []
    else
      var rest := StripSymbols(s[1..]);
      if IsBase64Symbol(s[0]) then rest else [s[0]] + rest
  }

  /** No `+`, `/` or `=` is left, every other character is kept, and a text
      without them comes back unchanged. */
  lemma {:induction false} StripSymbolsFacts(s: string)
    ensures var r := StripSymbols(s);
      && (forall i :: 0 <= i < |r| ==> !IsBase64Symbol(r[i]))
      && (forall i :: 0 <= i < |s| && !IsBase64Symbol(s[i]) ==> s[i] in r)
      && ((forall i :: 0 <= i < |s| ==> !IsBase64Symbol(s[i])) ==> r == s)
  {
    if s != [] {
      var t := s[1..];
      var rest := StripSymbols(t);
      StripSymbolsFacts(t);
      var r := StripSymbols(s);
      assert r == if IsBase64Symbol(s[0]) then rest else [s[0]] + rest;
      forall i | 0 <= i < |s| && !IsBase64Symbol(s[i])
        ensures s[i] in r
      {
        if i > 0 {
          assert s[i] == t[i - 1];
        }
      }
      if forall i :: 0 <= i < |s| ==> !IsBase64Symbol(s[i]) {
        forall i | 0 <= i < |t|
          ensures !IsBase64Symbol(t[i])
        {
          assert t[i] == s[i + 1];
        }
        assert s == [s[0]] + t;
      }
    }
  }

  /** `generateTeamCode` applied to the base64 text of the random bytes: the
      symbols removed, lower-cased, and cut to nine characters. */
  function GenerateTeamCode(encoded: string): (code: string)
    ensures |code| <= CodeLength
  {
    var t := Lower(StripSymbols(encoded));
    if |t| <= CodeLength then t else t[..CodeLength]
  }

  /** A code has no symbol and no upper-case letter, and it is the lower-cased
      stripped text cut to at most nine characters. */
  lemma GenerateTeamCodeFacts(encoded: string)
    ensures var code := GenerateTeamCode(encoded);
      && |code| == (if |StripSymbols(encoded)| < CodeLength then |StripSymbols(encoded)| else CodeLength)
      && IsLowerCase(code)
      && (forall i :: 0 <= i < |code| ==> !IsBase64Symbol(code[i]))
      && code == Lower(StripSymbols(encoded))[..|code|]
  {
    var t := StripSymbols(encoded);
    var l := Lower(t);
    var code := GenerateTeamCode(encoded);
    StripSymbolsFacts(encoded);
    LowerFacts(t);
    assert code == l[..|code|];
    forall i | 0 <= i < |code|
      ensures !IsUpper(code[i]) && !IsBase64Symbol(code[i])
    {
      assert code[i] == l[i] == LowerChar(t[i]);
    }
  }

  /** Five random bytes encode to eight base64 characters of which the last is
      the padding `=`, so an issued code never reaches the nine-character cut
      and has at most seven characters. */
  lemma CodesHaveAtMostSevenCharacters(encoded: string)
    requires |encoded| == 8 && encoded[7] == '='
    ensures |GenerateTeamCode(encoded)| <= 7
  {
    GenerateTeamCodeFacts(encoded);
    StripLength(encoded);
  }

  lemma {:induction false} StripLength(s: string)
    ensures |StripSymbols(s)| == |s| - SymbolCount(s)
  {
    if s != [] {
      StripLength(s[1..]);
    }
  }

  function SymbolCount(s: string): (n: nat)
    ensures n <= |s|
    ensures |s| > 0 && IsBase64Symbol(s[|s| - 1]) ==> n >= 1
  {
    if s == [] then 0
    else
      var n := SymbolCount(s[1..]);
      assert |s| > 1 ==> s[|s| - 1] == s[1..][|s[1..]| - 1];
      (if IsBase64Symbol(s[0]) then 1 else 0) + n
  }

  /** The index of the first draw in `from..limit` whose code is not yet issued. */
  function FirstFreshCode(issued: map<string, TeamCodeDoc>, draws: seq<string>, from: nat, limit: nat): (r: Option<nat>)
    requires from <= limit <= |draws|
    ensures r.Some? ==> from <= r.value < limit && GenerateTeamCode(draws[r.value]) !in issued
    ensures r.Some? ==> forall j :: from <= j < r.value ==> GenerateTeamCode(draws[j]) in issued
    ensures r.None? ==> forall j :: from <= j < limit ==> GenerateTeamCode(draws[j]) in issued
    decreases limit - from
  {
    if from == limit then None
    else if GenerateTeamCode(draws[from]) !in issued then Some(from)
    else FirstFreshCode(issued, draws, from + 1, limit)
  }

  /** The first draw whose code is fresh, after issued ones only, is the one
      `FirstFreshCode` finds. */
  lemma {:induction false} FirstFreshIs(issued: map<string, TeamCodeDoc>, draws: seq<string>, from: nat, limit: nat, k: nat)
    requires from <= k < limit <= |draws|
    requires GenerateTeamCode(draws[k]) !in issued
    requires forall j :: from <= j < k ==> GenerateTeamCode(draws[j]) in issued
    ensures FirstFreshCode(issued, draws, from, limit) == Some(k)
    decreases k - from
  {
    if from < k {
      FirstFreshIs(issued, draws, from + 1, limit, k);
    }
  }

  lemma {:induction false} NoFreshCode(issued: map<string, TeamCodeDoc>, draws: seq<string>, from: nat, limit: nat)
    requires from <= limit <= |draws|
    requires forall j :: from <= j < limit ==> GenerateTeamCode(draws[j]) in issued
    ensures FirstFreshCode(issued, draws, from, limit).None?
    decreases limit - from
  {
    if from < limit {
      NoFreshCode(issued, draws, from + 1, limit);
    }
  }

  /** The retry loop: draws codes until one is not yet issued or ten have been
      tried. */
  method PickUniqueCode(issued: map<string, TeamCodeDoc>, draws: seq<string>) returns (code: Option<string>, attempts: nat)
    requires |draws| >= MaxAttempts
    ensures 1 <= attempts <= MaxAttempts
    ensures FirstFreshCode(issued, draws, 0, MaxAttempts) == if code.Some? then Some(attempts - 1) else None
    ensures code.Some? ==>
      && code.value == GenerateTeamCode(draws[attempts - 1])
      && code.value !in issued
    ensures code.None? ==> attempts == MaxAttempts
    ensures forall j :: 0 <= j < attempts - 1 ==> GenerateTeamCode(draws[j]) in issued
  {
    var teamCode := "";
    var isUnique := false;
    attempts := 0;
    while !isUnique && attempts < MaxAttempts
      invariant 0 <= attempts <= MaxAttempts
      invariant attempts > 0 ==> teamCode == GenerateTeamCode(draws[attempts - 1])
      invariant isUnique <==> attempts > 0 && teamCode !in issued
      invariant forall j :: 0 <= j < attempts - 1 ==> GenerateTeamCode(draws[j]) in issued
      decreases MaxAttempts - attempts
    {
      teamCode := GenerateTeamCode(draws[attempts]);
      if teamCode !in issued {
        isUnique := true;
      }
      attempts := attempts + 1;
    }
    if isUnique {
      code := Some(teamCode);
      FirstFreshIs(issued, draws, 0, MaxAttempts, attempts - 1);
    } else {
      code := None;
      NoFreshCode(issued, draws, 0, MaxAttempts);
    }
  }

  /** The checks the route makes, in order. */
  datatype RegistrationError = TeamNameRequired | PhoneNumberRequired | MembersRequired | MemberIncomplete

  /** `member.fullName && member.email && member.gender && member.foodPreference` */
  predicate HasAllDetails(m: Member)
  {
    m.fullName != "" && m.email != "" && m.gender != "" && m.foodPreference != ""
  }

  function FirstError(t: TeamData): (r: Option<RegistrationError>)
    ensures r == Some(TeamNameRequired) <==> t.teamName == ""
    ensures r == Some(PhoneNumberRequired) <==> t.teamName != "" && t.phoneNumber == ""
    ensures r == Some(MembersRequired) <==> t.teamName != "" && t.phoneNumber != "" && t.members.None?
    ensures r == Some(MemberIncomplete) <==>
      t.teamName != "" && t.phoneNumber != "" && t.members.Some?
      && exists i :: 0 <= i < |t.members.value| && !HasAllDetails(t.members.value[i])
    ensures r.None? <==>
      t.teamName != "" && t.phoneNumber != "" && t.members.Some?
      && forall i :: 0 <= i < |t.members.value| ==> HasAllDetails(t.members.value[i])
  {
    if t.teamName == "" then Some(TeamNameRequired)
    else if t.phoneNumber == "" then Some(PhoneNumberRequired)
    else if t.members.None? then Some(MembersRequired)
    else if exists i :: 0 <= i < |t.members.value| && !HasAllDetails(t.members.value[i]) then Some(MemberIncomplete)
    else None
  }

  /** The number of members with all four details. */
  function DetailedCount(ms: seq<Member>): (n: nat)
    ensures n <= |ms|
    ensures n == |ms| <==> forall i :: 0 <= i < |ms| ==> HasAllDetails(ms[i])
  {
    if ms == [] then 0
    else
      assert forall i :: 1 <= i < |ms| ==> ms[i] == ms[1..][i - 1];
      (if HasAllDetails(ms[0]) then 1 else 0) + DetailedCount(ms[1..])
  }

  /** The member check the registration form expects of the route: at least
      two members with all details, the form's unused blank rows not counting
      against the team. */
  function CorrectedFirstError(t: TeamData): (r: Option<RegistrationError>)
    ensures r.None? <==>
      t.teamName != "" && t.phoneNumber != "" && t.members.Some? && DetailedCount(t.members.value) >= 2
    ensures r.Some? ==> r == FirstError(t) || (FirstError(t).None? && r == Some(MemberIncomplete))
  {
    if t.teamName == "" then Some(TeamNameRequired)
    else if t.phoneNumber == "" then Some(PhoneNumberRequired)
    else if t.members.None? then Some(MembersRequired)
    else if DetailedCount(t.members.value) < 2 then Some(MemberIncomplete)
    else None
  }

  /** The corrected check accepts every team of two or more whose members are
      all complete, which is all the route as written accepts beyond teams of
      fewer than two. */
  lemma CorrectedKeepsCompleteTeams(t: TeamData)
    requires FirstError(t).None? && |t.members.value| >= 2
    ensures CorrectedFirstError(t).None?
  {
  }

  /** The `for ... of` loop over the members, returning at the first incomplete
      one. */
  method AllMembersComplete(members: seq<Member>) returns (ok: bool)
    ensures ok <==> forall i :: 0 <= i < |members| ==> HasAllDetails(members[i])
  {
    var i := 0;
    while i < |members|
      invariant 0 <= i <= |members|
      invariant forall j :: 0 <= j < i ==> HasAllDetails(members[j])
    {
      var member := members[i];
      if member.fullName == "" || member.email == "" || member.gender == "" || member.foodPreference == "" {
        return false;
      }
      i := i + 1;
    }
    return true;
  }

  /** The validation steps of the handler, in the order it makes them. */
  method CheckTeamData(t: TeamData) returns (err: Option<RegistrationError>)
    ensures err == FirstError(t)
  {
    if t.teamName == "" {
      return Some(TeamNameRequired);
    }
    if t.phoneNumber == "" {
      return Some(PhoneNumberRequired);
    }
    if t.members.None? {
      return Some(MembersRequired);
    }
    var complete := AllMembersComplete(t.members.value);
    if !complete {
      return Some(MemberIncomplete);
    }
    return None;
  }

  /** `findOne({ "teamData.teamName": name })`: an exact, case-sensitive match. */
  predicate NameTaken(s: DbState, name: string)
  {
    exists i :: 0 <= i < |s.teams| && s.teams[i].teamName == name
  }

  /** 500 carries no error kind: either `teamData` was missing, so reading its
      fields threw, or no fresh code was found. */
  datatype CodeReply = CodeReply(status: int, error: Option<RegistrationError>, teamId: Option<nat>, teamCode: Option<string>)

  function TeamRecord(t: TeamData, id: nat, code: string, now: int): TeamDoc
    requires t.members.Some?
  {
    TeamDoc(id, t.teamName, t.teamEmail, t.phoneNumber, t.contactNumber, t.university, t.members.value,
      Some(code), now, "registered")
  }

  /** The whole route. `draws` are the base64 texts the random generator would
      produce, one per attempt. On success the new code was not issued before,
      is stored as registered and linked to the new team, and every earlier
      code is left as it was. */
  function RegisterWithCode(s: DbState, teamData: Option<TeamData>, draws: seq<string>, now: int): (out: Step<CodeReply>)
    requires WellFormed(s) && |draws| >= MaxAttempts
    ensures WellFormed(out.db)
    ensures out.reply.status in {200, 400, 409, 500}
    ensures out.reply.status == 400 <==> teamData.Some? && FirstError(teamData.value).Some?
    ensures out.reply.status == 400 ==> out.reply.error == FirstError(teamData.value)
    ensures out.reply.status == 409 <==>
      teamData.Some? && FirstError(teamData.value).None? && NameTaken(s, teamData.value.teamName)
    ensures out.reply.status == 500 <==>
      teamData.None?
      || (FirstError(teamData.value).None? && !NameTaken(s, teamData.value.teamName)
          && FirstFreshCode(s.teamCodes, draws, 0, MaxAttempts).None?)
    ensures out.reply.status != 200 ==> out.db == s && out.reply.teamCode.None? && out.reply.teamId.None?
    ensures out.reply.status == 200 ==>
      && out.reply.teamCode.Some? && out.reply.teamId == Some(s.nextId)
      && var code := out.reply.teamCode.value;
      && code == GenerateTeamCode(draws[FirstFreshCode(s.teamCodes, draws, 0, MaxAttempts).value])
      && code !in s.teamCodes
      && out.db == s.(teamCodes := s.teamCodes[code := TeamCodeDoc(code, true, now, Some(s.nextId))],
                      teams := s.teams + [TeamRecord(teamData.value, s.nextId, code, now)],
                      nextId := s.nextId + 1)
    ensures forall c :: c in s.teamCodes ==> c in out.db.teamCodes && out.db.teamCodes[c] == s.teamCodes[c]
  {
    if teamData.None? then Step(CodeReply(500, None, None, None), s)
    else
      var t := teamData.value;
      var err := FirstError(t);
      if err.Some? then Step(CodeReply(400, err, None, None), s)
      else if NameTaken(s, t.teamName) then Step(CodeReply(409, None, None, None), s)
      else
        var first := FirstFreshCode(s.teamCodes, draws, 0, MaxAttempts);
        if first.None? then Step(CodeReply(500, None, None, None), s)
        else
          var code := GenerateTeamCode(draws[first.value]);
          var id := s.nextId;
          RegistrationKeepsWellFormed(s, t, code, now);
          Step(CodeReply(200, None, Some(id), Some(code)),
            s.(teamCodes := s.teamCodes[code := TeamCodeDoc(code, true, now, Some(id))],
               teams := s.teams + [TeamRecord(t, id, code, now)],
               nextId := id + 1))
  }

  /** Storing a new code and its team under the next id keeps the invariant. */
  lemma RegistrationKeepsWellFormed(s: DbState, t: TeamData, code: string, now: int)
    requires WellFormed(s) && t.members.Some?
    ensures WellFormed(s.(teamCodes := s.teamCodes[code := TeamCodeDoc(code, true, now, Some(s.nextId))],
                          teams := s.teams + [TeamRecord(t, s.nextId, code, now)],
                          nextId := s.nextId + 1))
  {
    var teams := s.teams + [TeamRecord(t, s.nextId, code, now)];
    forall i | 0 <= i < |teams|
      ensures teams[i].id < s.nextId + 1
    {
      if i < |s.teams| {
        assert teams[i] == s.teams[i];
      }
    }
  }

  /** Registering twice under the same team name is refused the second time,
      whatever the random draws. */
  lemma SecondRegistrationRefused(s: DbState, t: TeamData, draws: seq<string>, later: seq<string>, now: int, when: int)
    requires WellFormed(s) && |draws| >= MaxAttempts && |later| >= MaxAttempts
    requires RegisterWithCode(s, Some(t), draws, now).reply.status == 200
    ensures var s1 := RegisterWithCode(s, Some(t), draws, now).db;
      RegisterWithCode(s1, Some(t), later, when) == Step(CodeReply(409, None, None, None), s1)
  {
    var s1 := RegisterWithCode(s, Some(t), draws, now).db;
    assert s1.teams[|s.teams|].teamName == t.teamName;
  }

  /** The route handler over the live database. */
  method Register(db: Database, teamData: Option<TeamData>, draws: seq<string>, now: int) returns (reply: CodeReply)
    requires db.Valid() && |draws| >= MaxAttempts
    modifies db
    ensures db.Valid()
    ensures Step(reply, db.State()) == RegisterWithCode(old(db.State()), teamData, draws, now)
  {
    ghost var s0 := db.State();
    ghost var out := RegisterWithCode(s0, teamData, draws, now);
    if teamData.None? {
      return CodeReply(500, None, None, None);
    }
    var t := teamData.value;
    var err := CheckTeamData(t);
    if err.Some? {
      return CodeReply(400, err, None, None);
    }
    if exists i :: 0 <= i < |db.teams| && db.teams[i].teamName == t.teamName {
      return CodeReply(409, None, None, None);
    }
    var code, attempts := PickUniqueCode(db.teamCodes, draws);
    if code.None? {
      return CodeReply(500, None, None, None);
    }
    var c := code.value;
    assert out.db == s0.(teamCodes := s0.teamCodes[c := TeamCodeDoc(c, true, now, Some(s0.nextId))],
      teams := s0.teams + [TeamRecord(t, s0.nextId, c, now)], nextId := s0.nextId + 1);
    var teamId := db.StoreRegistration(c, TeamRecord(t, db.nextId, c, now), now);
    reply := CodeReply(200, None, Some(teamId), code);
  }
}
