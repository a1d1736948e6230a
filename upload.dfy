/** POST /api/upload: stores a team's single solution submission, files and all,
    in `team_submissions`, and refuses a second one. */
module Upload {
  import opened Common
  import opened Store

  /** A file part of a multipart form; `encoded` is the base64 text of its bytes. */
  datatype UploadedFile = UploadedFile(name: string, mimeType: string, size: nat, lastModified: int, encoded: string)

  /** The fields of the multipart form. `teamCode` and `explanation` are None when
      the field is missing; `questionType` is the result of `parseInt`, None
      standing for NaN. */
  datatype UploadForm = UploadForm(
    teamCode: Option<string>,
    questionType: Option<int>,
    explanation: Option<string>,
    files: seq<UploadedFile>)

  /** The existing submission a 409 reply describes. */
  datatype SubmissionSummary = SubmissionSummary(
    id: nat,
    teamCode: string,
    questionType: QuestionValue,
    explanation: string,
    fileNames: seq<string>,
    submittedAt: int)

  datatype UploadReply = UploadReply(status: int, existing: Option<SubmissionSummary>)

  function ToFileRecord(f: UploadedFile): FileRecord
  {
    FileRecord(f.name, f.mimeType, f.size, f.encoded, f.lastModified)
  }

  /** The stored form of each uploaded file, one for one and in order. */
  function FileRecords(files: seq<UploadedFile>): (r: seq<FileRecord>)
    ensures |r| == |files|
    ensures forall i :: 0 <= i < |files| ==>
      && r[i].name == files[i].name && r[i].mimeType == files[i].mimeType
      && r[i].size == files[i].size && r[i].content == files[i].encoded
      && r[i].lastModified == files[i].lastModified
  {
    if files == [] then [] else [ToFileRecord(files[0])] + FileRecords(files[1..])
  }

  /** `files.map(file => file.name)`. */
  function FileNames(files: seq<FileRecord>): (r: seq<string>)
    ensures |r| == |files|
    ensures forall i :: 0 <= i < |files| ==> r[i] == files[i].name
  {
    if files == [] then [] else [files[0].name] + FileNames(files[1..])
  }

  /** `s || ""` on a form field */
  function OrEmpty(s: Option<string>): string
  {
    if s.Some? then s.value else ""
  }

  /** The metadata of a stored submission the 409 reply returns. */
  function Summary(d: SubmissionDoc): (r: SubmissionSummary)
    ensures r.id == d.id && r.teamCode == d.teamCode && r.submittedAt == d.submittedAt
    ensures r.questionType == d.questionType && r.explanation == d.explanation
    ensures d.fileNames.Some? ==> r.fileNames == d.fileNames.value
    ensures d.fileNames.None? ==> r.fileNames == []
  {
    SubmissionSummary(d.id, d.teamCode, d.questionType, d.explanation,
      if d.fileNames.Some? then d.fileNames.value else [], d.submittedAt)
  }

  /** The request is refused unless the team code is a non-empty string and the
      question type parses as a number. */
  predicate MissingFields(f: UploadForm)
  {
    f.teamCode.None? || f.teamCode.value == "" || f.questionType.None?
  }

  /** The whole route: 400 on missing fields, 409 with the earlier submission
      when one exists for the lower-cased code, otherwise the submission is
      appended. No run of the route lets a team hold two submissions. */
  function UploadSubmission(s: DbState, f: UploadForm, now: int): (out: Step<UploadReply>)
    requires WellFormed(s)
    ensures WellFormed(out.db)
    ensures out.reply.status in {200, 400, 409}
    ensures out.reply.status == 400 <==> MissingFields(f)
    ensures out.reply.status == 409 <==>
      !MissingFields(f) && FindSubmission(s.teamSubmissions, Lower(f.teamCode.value)).Some?
    ensures out.reply.status != 200 ==> out.db == s
    ensures out.reply.existing.Some? <==> out.reply.status == 409
    ensures out.reply.status == 409 ==>
      out.reply.existing.value.teamCode == Lower(f.teamCode.value)
      && out.reply.existing == Some(Summary(FindSubmission(s.teamSubmissions, Lower(f.teamCode.value)).value))
    ensures out.reply.status == 200 ==>
      var d := SubmissionDoc(s.nextId, Lower(f.teamCode.value), Num(f.questionType.value),
        OrEmpty(f.explanation), Some(FileRecords(f.files)), Some(FileNames(FileRecords(f.files))), now);
      out.db == s.(teamSubmissions := s.teamSubmissions + [d], nextId := s.nextId + 1)
  {
    if MissingFields(f) then Step(UploadReply(400, None), s)
    else
      var key := Lower(f.teamCode.value);
      var existing := FindSubmission(s.teamSubmissions, key);
      if existing.Some? then Step(UploadReply(409, Some(Summary(existing.value))), s)
      else
        var records := FileRecords(f.files);
        var d := SubmissionDoc(s.nextId, key, Num(f.questionType.value), OrEmpty(f.explanation),
          Some(records), Some(FileNames(records)), now);
        AppendKeepsUnique(s.teamSubmissions, d);
        Step(UploadReply(200, None), s.(teamSubmissions := s.teamSubmissions + [d], nextId := s.nextId + 1))
  }

  /** The stored file names are the names of the uploaded files, in order. */
  lemma StoredNamesAreUploadedNames(files: seq<UploadedFile>)
    ensures |FileNames(FileRecords(files))| == |files|
    ensures forall i :: 0 <= i < |files| ==> FileNames(FileRecords(files))[i] == files[i].name
  {
  }

  /** A second upload for the same team, in any letter case, is refused with the
      first one's metadata, and the store is unchanged. */
  lemma SecondUploadRefused(s: DbState, f: UploadForm, g: UploadForm, now: int, later: int)
    requires WellFormed(s)
    requires UploadSubmission(s, f, now).reply.status == 200
    requires !MissingFields(g) && Lower(g.teamCode.value) == Lower(f.teamCode.value)
    ensures var s1 := UploadSubmission(s, f, now).db;
      var out := UploadSubmission(s1, g, later);
      && out.reply.status == 409
      && out.db == s1
      && out.reply.existing.value.fileNames == FileNames(FileRecords(f.files))
      && out.reply.existing.value.id == s.nextId
  {
    var s1 := UploadSubmission(s, f, now).db;
    var key := Lower(f.teamCode.value);
    var d := s1.teamSubmissions[|s1.teamSubmissions| - 1];
    assert d.teamCode == key;
    var found := FindSubmission(s1.teamSubmissions, key);
    assert found.Some?;
    var k :| 0 <= k < |s1.teamSubmissions| && s1.teamSubmissions[k] == found.value;
    assert k == |s1.teamSubmissions| - 1;
  }

  /** The route handler over the live database. */
  method Upload(db: Database, f: UploadForm, now: int) returns (reply: UploadReply)
    requires db.Valid()
    modifies db
    ensures db.Valid()
    ensures Step(reply, db.State()) == UploadSubmission(old(db.State()), f, now)
  {
    if f.teamCode.None? || f.teamCode.value == "" || f.questionType.None? {
      return UploadReply(400, None);
    }
    var records := FileRecords(f.files);
    var key := Lower(f.teamCode.value);
    var existing := FindSubmission(db.teamSubmissions, key);
    if existing.Some? {
      return UploadReply(409, Some(Summary(existing.value)));
    }
    var id := db.NewId();
    var d := SubmissionDoc(id, key, Num(f.questionType.value), OrEmpty(f.explanation),
      Some(records), Some(FileNames(records)), now);
    db.teamSubmissions := db.teamSubmissions + [d];
    reply := UploadReply(200, None);
  }
}
