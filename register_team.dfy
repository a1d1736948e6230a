/** /api/register-team, the registration route without team codes: POST checks
    a team, keeps only its complete members and stores it; GET lists every
    team, newest first, exposing only a few fields. */
module RegisterTeam {
  import opened Common
  import opened Store

  /** `member.fullName?.trim() && member.email?.trim() && member.foodChoice` */
  predicate IsComplete(m: Member)
  {
    Trim(m.fullName) != "" && Trim(m.email) != "" && m.foodChoice != ""
  }

  /** The `filter` over the members: the complete ones, in their original order. */
  function CompleteMembers(ms: seq<Member>): (r: seq<Member>)
    ensures |r| <= |ms|
    ensures forall m :: m in r <==> m in ms && IsComplete(m)
  {
    if ms == [] then []
    else if IsComplete(ms[0]) then [ms[0]] + CompleteMembers(ms[1..])
    else CompleteMembers(ms[1..])
  }

  /** Filtering a list in two parts is filtering each part: the kept members stay
      in their original relative order. */
  lemma {:induction false} CompleteMembersOfConcat(a: seq<Member>, b: seq<Member>)
    ensures CompleteMembers(a + b) == CompleteMembers(a) + CompleteMembers(b)
  {
    if a == [] {
      assert a + b == b;
    } else {
      assert (a + b)[0] == a[0];
      assert (a + b)[1..] == a[1..] + b;
      CompleteMembersOfConcat(a[1..], b);
    }
  }

  /** Filtering again removes nothing. */
  lemma {:induction false} CompleteMembersIdempotent(ms: seq<Member>)
    ensures CompleteMembers(CompleteMembers(ms)) == CompleteMembers(ms)
  {
    if ms != [] {
      CompleteMembersIdempotent(ms[1..]);
      if IsComplete(ms[0]) {
        assert ([ms[0]] + CompleteMembers(ms[1..]))[1..] == CompleteMembers(ms[1..]);
      }
    }
  }

  /** The three ordered checks and the member count. */
  datatype TeamError = NameOrEmailRequired | ContactOrUniversityRequired | MembersRequired | TooFewCompleteMembers

  function FirstError(t: TeamData): (r: Option<TeamError>)
    ensures r == Some(NameOrEmailRequired) <==> t.teamName == "" || t.teamEmail == ""
    ensures r == Some(ContactOrUniversityRequired) <==>
      t.teamName != "" && t.teamEmail != "" && (t.contactNumber == "" || t.university == "")
    ensures r == Some(MembersRequired) <==>
      t.teamName != "" && t.teamEmail != "" && t.contactNumber != "" && t.university != "" && t.members.None?
    ensures r.None? <==>
      t.teamName != "" && t.teamEmail != "" && t.contactNumber != "" && t.university != ""
      && t.members.Some? && |CompleteMembers(t.members.value)| >= 2
  {
    if t.teamName == "" || t.teamEmail == "" then Some(NameOrEmailRequired)
    else if t.contactNumber == "" || t.university == "" then Some(ContactOrUniversityRequired)
    else if t.members.None? then Some(MembersRequired)
    else if |CompleteMembers(t.members.value)| < 2 then Some(TooFewCompleteMembers)
    else None
  }

  /** The `$or` look-up: an exact match on the name or on the e-mail. */
  predicate NameOrEmailTaken(s: DbState, t: TeamData)
  {
    exists i :: 0 <= i < |s.teams| && (s.teams[i].teamName == t.teamName || s.teams[i].teamEmail == t.teamEmail)
  }

  /** The stored registration: the submitted fields with only the complete
      members, no team code and status "registered". */
  function NewTeam(t: TeamData, id: nat, now: int): (team: TeamDoc)
    requires FirstError(t).None?
    ensures team.id == id && team.teamName == t.teamName && team.teamEmail == t.teamEmail
    ensures team.phoneNumber == t.phoneNumber && team.contactNumber == t.contactNumber && team.university == t.university
    ensures team.teamCode.None? && team.registrationDate == now && team.status == "registered"
    ensures team.members == CompleteMembers(t.members.value)
    ensures |team.members| >= 2 && forall m :: m in team.members ==> IsComplete(m)
  {
    TeamDoc(id, t.teamName, t.teamEmail, t.phoneNumber, t.contactNumber, t.university,
      CompleteMembers(t.members.value), None, now, "registered")
  }

  /** 500 stands for the throw when `teamData` is missing. */
  datatype TeamReply = TeamReply(status: int, error: Option<TeamError>, teamId: Option<nat>)

  /** POST: the first failing check as 400, 409 on a taken name or e-mail,
      otherwise one team appended with only its complete members, at least
      two of them, and status "registered". */
  function RegisterTeam(s: DbState, teamData: Option<TeamData>, now: int): (out: Step<TeamReply>)
    requires WellFormed(s)
    ensures WellFormed(out.db)
    ensures out.reply.status in {200, 400, 409, 500}
    ensures out.reply.status == 500 <==> teamData.None?
    ensures out.reply.status == 400 <==> teamData.Some? && FirstError(teamData.value).Some?
    ensures out.reply.status == 400 ==> out.reply.error == FirstError(teamData.value)
    ensures out.reply.status == 409 <==>
      teamData.Some? && FirstError(teamData.value).None? && NameOrEmailTaken(s, teamData.value)
    ensures out.reply.status != 200 ==> out.db == s && out.reply.teamId.None?
    ensures out.reply.status == 200 ==>
      && out.reply.teamId == Some(s.nextId)
      && out.db == s.(teams := s.teams + [NewTeam(teamData.value, s.nextId, now)], nextId := s.nextId + 1)
  {
    if teamData.None? then Step(TeamReply(500, None, None), s)
    else
      var t := teamData.value;
      var err := FirstError(t);
      if err.Some? then Step(TeamReply(400, err, None), s)
      else if NameOrEmailTaken(s, t) then Step(TeamReply(409, None, None), s)
      else
        var team := NewTeam(t, s.nextId, now);
        Step(TeamReply(200, None, Some(s.nextId)), s.(teams := s.teams + [team], nextId := s.nextId + 1))
  }

  /** The POST handler over the live database. */
  method Post(db: Database, teamData: Option<TeamData>, now: int) returns (reply: TeamReply)
    requires db.Valid()
    modifies db
    ensures db.Valid()
    ensures Step(reply, db.State()) == RegisterTeam(old(db.State()), teamData, now)
  {
    if teamData.None? {
      return TeamReply(500, None, None);
    }
    var t := teamData.value;
    if t.teamName == "" || t.teamEmail == "" {
      return TeamReply(400, Some(NameOrEmailRequired), None);
    }
    if t.contactNumber == "" || t.university == "" {
      return TeamReply(400, Some(ContactOrUniversityRequired), None);
    }
    if t.members.None? {
      return TeamReply(400, Some(MembersRequired), None);
    }
    var complete := CompleteMembers(t.members.value);
    if |complete| < 2 {
      return TeamReply(400, Some(TooFewCompleteMembers), None);
    }
    if exists i :: 0 <= i < |db.teams| && (db.teams[i].teamName == t.teamName || db.teams[i].teamEmail == t.teamEmail) {
      return TeamReply(409, None, None);
    }
    var id := db.NewId();
    db.teams := db.teams + [TeamDoc(id, t.teamName, t.teamEmail, t.phoneNumber, t.contactNumber, t.university,
      complete, None, now, "registered")];
    assert db.teams[|db.teams| - 1] == NewTeam(t, id, now);
    reply := TeamReply(200, None, Some(id));
  }

  /** A second POST with the same name or e-mail is refused. */
  lemma SecondRegistrationRefused(s: DbState, t: TeamData, u: TeamData, now: int)
    requires WellFormed(s)
    requires RegisterTeam(s, Some(t), now).reply.status == 200
    requires FirstError(u).None? && (u.teamName == t.teamName || u.teamEmail == t.teamEmail)
    ensures var s1 := RegisterTeam(s, Some(t), now).db;
      RegisterTeam(s1, Some(u), now) == Step(TeamReply(409, None, None), s1)
  {
    var s1 := RegisterTeam(s, Some(t), now).db;
    assert s1.teams[|s.teams|].teamName == t.teamName;
  }

  // --- GET ---

  predicate NewestFirst(ts: seq<TeamDoc>)
  {
    forall i, j :: 0 <= i < j < |ts| ==> ts[i].registrationDate >= ts[j].registrationDate
  }

  /** Inserts a team into a list ordered newest first: before the first team
      that is not newer than it. */
  function InsertByDate(t: TeamDoc, ts: seq<TeamDoc>): (r: seq<TeamDoc>)
    ensures |r| == |ts| + 1
    ensures r[0] == if ts == [] || t.registrationDate >= ts[0].registrationDate then t else ts[0]
  {
    if ts == [] || t.registrationDate >= ts[0].registrationDate then [t] + ts
    else [ts[0]] + InsertByDate(t, ts[1..])
  }

  /** Inserting into a newest-first list keeps it newest first. */
  lemma {:induction false} InsertByDateOrdered(t: TeamDoc, ts: seq<TeamDoc>)
    requires NewestFirst(ts)
    ensures NewestFirst(InsertByDate(t, ts))
  {
    if ts == [] || t.registrationDate >= ts[0].registrationDate {
      NewestFirstCons(t, ts);
    } else {
      var tail := ts[1..];
      assert NewestFirst(tail) by {
        forall i, j | 0 <= i < j < |tail|
          ensures tail[i].registrationDate >= tail[j].registrationDate
        {
          assert tail[i] == ts[i + 1] && tail[j] == ts[j + 1];
        }
      }
      InsertByDateOrdered(t, tail);
      var rest := InsertByDate(t, tail);
      assert |ts| > 1 ==> ts[0].registrationDate >= ts[1].registrationDate;
      NewestFirstCons(ts[0], rest);
    }
  }

  /** Inserting adds exactly the one team. */
  lemma {:induction false} InsertByDatePermutes(t: TeamDoc, ts: seq<TeamDoc>)
    ensures multiset(InsertByDate(t, ts)) == multiset(ts) + multiset{t}
  {
    if ts != [] && t.registrationDate < ts[0].registrationDate {
      InsertByDatePermutes(t, ts[1..]);
      MultisetCons(ts);
    }
  }

  lemma MultisetCons(ts: seq<TeamDoc>)
    requires ts != []
    ensures multiset(ts) == multiset{ts[0]} + multiset(ts[1..])
  {
    assert ts == [ts[0]] + ts[1..];
  }

  /** A team no older than the head of a newest-first list can go in front. */
  lemma NewestFirstCons(x: TeamDoc, ts: seq<TeamDoc>)
    requires NewestFirst(ts)
    requires ts == [] || x.registrationDate >= ts[0].registrationDate
    ensures NewestFirst([x] + ts)
  {
    var r := [x] + ts;
    forall i, j | 0 <= i < j < |r|
      ensures r[i].registrationDate >= r[j].registrationDate
    {
      if i == 0 {
        assert r[j] == ts[j - 1];
        assert j - 1 == 0 || ts[0].registrationDate >= ts[j - 1].registrationDate;
      } else {
        assert r[i] == ts[i - 1] && r[j] == ts[j - 1];
      }
    }
  }

  /** `sort({ registrationDate: -1 })`: the same teams, newest first. */
  function SortNewestFirst(ts: seq<TeamDoc>): (r: seq<TeamDoc>)
    ensures |r| == |ts|
  {
    if ts == [] then [] else InsertByDate(ts[0], SortNewestFirst(ts[1..]))
  }

  /** The sorted list is newest first. */
  lemma {:induction false} SortNewestFirstOrdered(ts: seq<TeamDoc>)
    ensures NewestFirst(SortNewestFirst(ts))
  {
    if ts != [] {
      SortNewestFirstOrdered(ts[1..]);
      InsertByDateOrdered(ts[0], SortNewestFirst(ts[1..]));
    }
  }

  /** The sorted list holds the same teams, counted with repetition. */
  lemma {:induction false} SortNewestFirstPermutes(ts: seq<TeamDoc>)
    ensures multiset(SortNewestFirst(ts)) == multiset(ts)
  {
    if ts != [] {
      SortNewestFirstPermutes(ts[1..]);
      InsertByDatePermutes(ts[0], SortNewestFirst(ts[1..]));
      MultisetCons(ts);
    }
  }

  /** `members.map(member => member.fullName).filter(Boolean)` */
  function MemberNames(ms: seq<Member>): (r: seq<string>)
    ensures |r| <= |ms|
    ensures forall n :: n in r <==> n != "" && exists i :: 0 <= i < |ms| && ms[i].fullName == n
  {
    if ms == [] then []
    else
      assert forall i :: 1 <= i < |ms| ==> ms[i] == ms[1..][i - 1];
      if ms[0].fullName != "" then [ms[0].fullName] + MemberNames(ms[1..]) else MemberNames(ms[1..])
  }

  /** Names of a list in two parts are the names of each part, in order. */
  lemma {:induction false} MemberNamesOfConcat(a: seq<Member>, b: seq<Member>)
    ensures MemberNames(a + b) == MemberNames(a) + MemberNames(b)
  {
    if a == [] {
      assert a + b == b;
    } else {
      assert (a + b)[0] == a[0];
      assert (a + b)[1..] == a[1..] + b;
      MemberNamesOfConcat(a[1..], b);
    }
  }

  /** What the listing exposes of a team. */
  datatype TeamSummary = TeamSummary(id: nat, teamName: string, teamEmail: string, memberNames: seq<string>,
    registrationDate: int, status: string)

  function Summary(t: TeamDoc): TeamSummary
  {
    TeamSummary(t.id, t.teamName, t.teamEmail, MemberNames(t.members), t.registrationDate, t.status)
  }

  function Summaries(ts: seq<TeamDoc>): (r: seq<TeamSummary>)
    ensures |r| == |ts|
    ensures forall i :: 0 <= i < |ts| ==> r[i] == Summary(ts[i])
  {
    if ts == [] then [] else [Summary(ts[0])] + Summaries(ts[1..])
  }

  /** GET: one summary per stored team, newest first. */
  function ListTeams(s: DbState): (r: seq<TeamSummary>)
    ensures |r| == |s.teams|
    ensures forall i, j :: 0 <= i < j < |r| ==> r[i].registrationDate >= r[j].registrationDate
    ensures forall i :: 0 <= i < |r| ==> exists k :: 0 <= k < |s.teams| && r[i] == Summary(s.teams[k])
    ensures forall k :: 0 <= k < |s.teams| ==> Summary(s.teams[k]) in r
  {
    var sorted := SortNewestFirst(s.teams);
    SortNewestFirstOrdered(s.teams);
    SortNewestFirstPermutes(s.teams);
    SameElements(sorted, s.teams);
    Summaries(sorted)
  }

  /** Two lists holding the same teams, counted with repetition, have the same
      elements. */
  lemma SameElements(a: seq<TeamDoc>, b: seq<TeamDoc>)
    requires multiset(a) == multiset(b)
    ensures forall i :: 0 <= i < |a| ==> a[i] in b
    ensures forall k :: 0 <= k < |b| ==> b[k] in a
  {
    forall i | 0 <= i < |a|
      ensures a[i] in b
    {
      assert a[i] in multiset(a);
    }
    forall k | 0 <= k < |b|
      ensures b[k] in a
    {
      assert b[k] in multiset(b);
    }
  }
}
