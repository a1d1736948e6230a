/** The documents of the five MongoDB collections the API routes use, the whole
    store as one value, and the `Database` object the route handlers update.
    Object ids are drawn from a counter that only grows, so every inserted
    document gets an id no earlier document has. */
module Store {
  import opened Common

  /** A document of `team_codes`. */
  datatype TeamCodeDoc = TeamCodeDoc(code: string, isRegistered: bool, createdAt: int, teamId: Option<nat>)

  /** A team member as either registration route receives it; a field a client
      leaves out is the empty string. */
  datatype Member = Member(fullName: string, email: string, gender: string, foodPreference: string, foodChoice: string)

  /** The `teamData` object of a registration request. `members` is None when
      the field is missing or not an array. */
  datatype TeamData = TeamData(
    teamName: string,
    teamEmail: string,
    phoneNumber: string,
    contactNumber: string,
    university: string,
    members: Option<seq<Member>>)

  /** A document of `teams` (both registration routes write here). */
  datatype TeamDoc = TeamDoc(
    id: nat,
    teamName: string,
    teamEmail: string,
    phoneNumber: string,
    contactNumber: string,
    university: string,
    members: seq<Member>,
    teamCode: Option<string>,
    registrationDate: int,
    status: string)

  /** A document of `onboarding_session`. The completion flag may be stored as
      null: PUT copies whatever value the client sends. */
  datatype SessionDoc = SessionDoc(
    id: nat,
    teamCode: string,
    teamId: Option<nat>,
    questionType: Option<int>,
    startTime: Option<int>,
    endTime: Option<int>,
    isCompleted: Option<bool>)

  /** An uploaded file as stored; `content` is the base64 text of the bytes. */
  datatype FileRecord = FileRecord(name: string, mimeType: string, size: nat, content: string, lastModified: int)

  /** A stored question type: a number, or the NaN that `parseInt` gives for a
      missing form field. */
  datatype QuestionValue = Num(n: int) | NaN

  /** A document of `team_submissions`. Older documents may lack `files` or
      `fileNames`, which is why readers default them. */
  datatype SubmissionDoc = SubmissionDoc(
    id: nat,
    teamCode: string,
    questionType: QuestionValue,
    explanation: string,
    files: Option<seq<FileRecord>>,
    fileNames: Option<seq<string>>,
    submittedAt: int)

  /** A document of `submissions`, written only by PATCH /api/onboarding-session. */
  datatype CompletionDoc = CompletionDoc(
    id: nat,
    teamCode: string,
    teamId: Option<nat>,
    questionType: Option<int>,
    data: string,
    submittedAt: int)

  /** The whole store. `team_codes` is keyed by code and `onboarding_session` by
      lower-cased team code; the other collections keep insertion order. */
  datatype DbState = DbState(
    teamCodes: map<string, TeamCodeDoc>,
    teams: seq<TeamDoc>,
    sessions: map<string, SessionDoc>,
    teamSubmissions: seq<SubmissionDoc>,
    submissions: seq<CompletionDoc>,
    nextId: nat)

  /** What a route returns together with the store it leaves behind. */
  datatype Step<R> = Step(reply: R, db: DbState)

  /** No two `team_submissions` documents share a team code. */
  predicate SubmissionsUnique(docs: seq<SubmissionDoc>)
  {
    forall i, j :: 0 <= i < j < |docs| ==> docs[i].teamCode != docs[j].teamCode
  }

  /** The invariant every route preserves when requests run one after another. */
  predicate WellFormed(s: DbState)
  {
    && (forall c :: c in s.teamCodes ==> s.teamCodes[c].code == c)
    && (forall k :: k in s.sessions ==> s.sessions[k].teamCode == k && IsLowerCase(k))
    && (forall k :: k in s.sessions ==> s.sessions[k].id < s.nextId)
    && (forall i :: 0 <= i < |s.teams| ==> s.teams[i].id < s.nextId)
    && (forall i :: 0 <= i < |s.teamSubmissions| ==> s.teamSubmissions[i].id < s.nextId)
    && (forall i :: 0 <= i < |s.submissions| ==> s.submissions[i].id < s.nextId)
    && SubmissionsUnique(s.teamSubmissions)
  }

  const EmptyDb: DbState := DbState(map[], [], map[], [], [], 0)

  lemma EmptyIsWellFormed()
    ensures WellFormed(EmptyDb)
  {
  }

  /** `findOne({ code })` on `team_codes` followed by `isRegistered`. */
  predicate IsRegisteredCode(s: DbState, code: string)
  {
    code in s.teamCodes && s.teamCodes[code].isRegistered
  }

  /** `findOne({ teamCode })` on `team_submissions`: the first document with that
      team code. */
  function FindSubmission(docs: seq<SubmissionDoc>, code: string): (r: Option<SubmissionDoc>)
    ensures r.Some? <==> exists i :: 0 <= i < |docs| && docs[i].teamCode == code
    ensures r.Some? ==> r.value.teamCode == code && r.value in docs
  {
    if docs == [] then None
    else if docs[0].teamCode == code then Some(docs[0])
    else
      assert forall i :: 1 <= i < |docs| ==> docs[i] == docs[1..][i - 1];
      FindSubmission(docs[1..], code)
  }

  /** Appending a document whose team code is not yet present keeps the
      collection free of duplicates. */
  lemma AppendKeepsUnique(docs: seq<SubmissionDoc>, d: SubmissionDoc)
    requires SubmissionsUnique(docs)
    requires FindSubmission(docs, d.teamCode).None?
    ensures SubmissionsUnique(docs + [d])
  {
  }

  /** The collections as a MongoDB database holds them, updated in place by the
      route handlers. */
  class Database {
    var teamCodes: map<string, TeamCodeDoc>
    var teams: seq<TeamDoc>
    var sessions: map<string, SessionDoc>
    var teamSubmissions: seq<SubmissionDoc>
    var submissions: seq<CompletionDoc>
    var nextId: nat

    function State(): DbState
      reads this
    {
      DbState(teamCodes, teams, sessions, teamSubmissions, submissions, nextId)
    }

    predicate Valid()
      reads this
    {
      WellFormed(State())
    }

    constructor ()
      ensures Valid() && State() == EmptyDb
    {
      teamCodes, teams, sessions := map[], [], map[];
      teamSubmissions, submissions, nextId := [], [], 0;
    }

    /** Draws a fresh object id. */
    method NewId() returns (id: nat)
      modifies this
      ensures id == old(nextId)
      ensures State() == old(State()).(nextId := old(nextId) + 1)
    {
      id := nextId;
      nextId := nextId + 1;
    }

    /** Inserts a registered code, then the team under a fresh id, then links
        the code to the team. */
    method StoreRegistration(code: string, team: TeamDoc, now: int) returns (teamId: nat)
      requires team.id == nextId
      modifies this
      ensures teamId == old(nextId)
      ensures State() == old(State()).(
        teamCodes := old(teamCodes)[code := TeamCodeDoc(code, true, now, Some(teamId))],
        teams := old(teams) + [team],
        nextId := old(nextId) + 1)
    {
      teamCodes := teamCodes[code := TeamCodeDoc(code, true, now, None)];
      teamId := NewId();
      teams := teams + [team];
      teamCodes := teamCodes[code := teamCodes[code].(teamId := Some(teamId))];
    }
  }
}
