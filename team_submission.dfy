/** /api/team-submission: POST stores a submission sent either as a multipart
    form or as JSON, refusing a second one per team; GET lists a team's
    submissions, with file contents only on request. */
module TeamSubmission {
  import opened Common
  import opened Store
  import opened Upload

  /** The `files` field of a JSON body: missing or falsy, an array of file
      records, or a truthy value that is not an array (`files.map` then throws). */
  datatype JsonFiles = NoFiles | FileList(records: seq<FileRecord>) | NotAList

  /** The two request bodies POST accepts, told apart by the content type. In the
      JSON form `submittedAt` is the given date in milliseconds, None when
      missing. */
  datatype SubmissionRequest =
    | Multipart(form: UploadForm)
    | Json(teamCode: Arg, questionType: Field<int>, explanation: Option<string>,
           files: JsonFiles, submittedAt: Option<int>)

  /** 500 is the reply when `teamCode.toLowerCase` throws on a non-string code. */
  datatype PostReply = PostReply(status: int, existing: Option<SubmissionDoc>)

  /** `!teamCode || questionType === undefined || questionType === null` */
  predicate Missing(r: SubmissionRequest)
  {
    match r
    case Multipart(f) => f.teamCode.None? || f.teamCode.value == ""
    case Json(tc, qt, _, _, _) => !Truthy(tc) || !qt.Present?
  }

  /** The lower-cased team code, for a request that is not missing fields and
      whose code is a string. */
  function CodeText(r: SubmissionRequest): string
  {
    match r
    case Multipart(f) => if f.teamCode.Some? then f.teamCode.value else ""
    case Json(tc, _, _, _, _) => if tc.Text? then tc.s else ""
  }

  predicate CodeNotText(r: SubmissionRequest)
  {
    r.Json? && r.teamCode.NonText?
  }

  /** A JSON `files` that is truthy but not an array. */
  predicate FilesNotList(r: SubmissionRequest)
  {
    r.Json? && r.files.NotAList?
  }

  /** The document POST inserts. A multipart question type that does not parse
      is stored as NaN; a JSON `submittedAt` of 0 is falsy, so the current time
      is used instead. */
  function NewDoc(r: SubmissionRequest, id: nat, now: int): (d: SubmissionDoc)
    requires !Missing(r) && !CodeNotText(r) && !FilesNotList(r)
    ensures d.id == id && d.teamCode == Lower(CodeText(r))
    ensures d.files.Some? && d.fileNames.Some? && d.fileNames.value == FileNames(d.files.value)
    ensures r.Json? ==> d.questionType == Num(r.questionType.value)
    ensures r.Json? && r.files.FileList? ==> d.files.value == r.files.records
    ensures r.Json? && r.files.NoFiles? ==> d.files.value == []
    ensures r.Json? && r.submittedAt.Some? && r.submittedAt.value != 0 ==> d.submittedAt == r.submittedAt.value
    ensures (r.Multipart? || r.submittedAt.None? || r.submittedAt.value == 0) ==> d.submittedAt == now
    ensures r.Multipart? ==> d.files.value == FileRecords(r.form.files)
    ensures r.Multipart? ==> (d.questionType == NaN <==> r.form.questionType.None?)
    ensures r.Multipart? && r.form.questionType.Some? ==> d.questionType == Num(r.form.questionType.value)
    ensures d.explanation == OrEmpty(if r.Multipart? then r.form.explanation else r.explanation)
  {
    match r
    case Multipart(f) =>
      var records := FileRecords(f.files);
      SubmissionDoc(id, Lower(f.teamCode.value),
        if f.questionType.Some? then Num(f.questionType.value) else NaN,
        OrEmpty(f.explanation), Some(records), Some(FileNames(records)), now)
    case Json(tc, qt, ex, files, at) =>
      var records := if files.FileList? then files.records else [];
      SubmissionDoc(id, Lower(tc.s), Num(qt.value), OrEmpty(ex), Some(records), Some(FileNames(records)),
        if at.Some? && at.value != 0 then at.value else now)
  }

  /** POST: 400 on missing fields, 500 when the code is not a string, 409 with
      the stored document when the team already has one, 500 when a JSON
      `files` is not an array, otherwise the new document is appended. */
  function CreateSubmission(s: DbState, r: SubmissionRequest, now: int): (out: Step<PostReply>)
    requires WellFormed(s)
    ensures WellFormed(out.db)
    ensures out.reply.status in {200, 400, 409, 500}
    ensures out.reply.status == 400 <==> Missing(r)
    ensures out.reply.status == 500 <==>
      !Missing(r) && (CodeNotText(r) || (FilesNotList(r) && FindSubmission(s.teamSubmissions, Lower(CodeText(r))).None?))
    ensures out.reply.status == 409 <==>
      !Missing(r) && !CodeNotText(r) && FindSubmission(s.teamSubmissions, Lower(CodeText(r))).Some?
    ensures out.reply.status != 200 ==> out.db == s
    ensures out.reply.existing.Some? <==> out.reply.status == 409
    ensures out.reply.status == 409 ==>
      out.reply.existing.value in s.teamSubmissions && out.reply.existing.value.teamCode == Lower(CodeText(r))
    ensures out.reply.status == 200 ==>
      out.db == s.(teamSubmissions := s.teamSubmissions + [NewDoc(r, s.nextId, now)], nextId := s.nextId + 1)
  {
    if Missing(r) then Step(PostReply(400, None), s)
    else if CodeNotText(r) then Step(PostReply(500, None), s)
    else
      var key := Lower(CodeText(r));
      var existing := FindSubmission(s.teamSubmissions, key);
      if existing.Some? then Step(PostReply(409, existing), s)
      else if FilesNotList(r) then Step(PostReply(500, None), s)
      else
        var d := NewDoc(r, s.nextId, now);
        AppendKeepsUnique(s.teamSubmissions, d);
        Step(PostReply(200, None), s.(teamSubmissions := s.teamSubmissions + [d], nextId := s.nextId + 1))
  }

  /** Whichever of the two submission routes a team uses first, the other one
      then refuses: they share the collection and the duplicate check. */
  lemma UploadThenPostRefused(s: DbState, f: UploadForm, r: SubmissionRequest, now: int, later: int)
    requires WellFormed(s)
    requires UploadSubmission(s, f, now).reply.status == 200
    requires !Missing(r) && !CodeNotText(r) && Lower(CodeText(r)) == Lower(f.teamCode.value)
    ensures var s1 := UploadSubmission(s, f, now).db;
      CreateSubmission(s1, r, later) == Step(PostReply(409, Some(s1.teamSubmissions[|s.teamSubmissions|])), s1)
  {
    var s1 := UploadSubmission(s, f, now).db;
    var key := Lower(f.teamCode.value);
    var found := FindSubmission(s1.teamSubmissions, key);
    assert s1.teamSubmissions[|s.teamSubmissions|].teamCode == key;
    var k :| 0 <= k < |s1.teamSubmissions| && s1.teamSubmissions[k] == found.value;
    assert k == |s.teamSubmissions|;
  }

  /** The POST handler over the live database. */
  method Post(db: Database, r: SubmissionRequest, now: int) returns (reply: PostReply)
    requires db.Valid()
    modifies db
    ensures db.Valid()
    ensures Step(reply, db.State()) == CreateSubmission(old(db.State()), r, now)
  {
    ghost var s0 := db.State();
    if Missing(r) {
      return PostReply(400, None);
    }
    if CodeNotText(r) {
      return PostReply(500, None);
    }
    var existing := FindSubmission(db.teamSubmissions, Lower(CodeText(r)));
    if existing.Some? {
      return PostReply(409, existing);
    }
    if FilesNotList(r) {
      return PostReply(500, None);
    }
    ghost var out := CreateSubmission(s0, r, now);
    var id := db.NewId();
    db.teamSubmissions := db.teamSubmissions + [NewDoc(r, id, now)];
    assert db.State() == out.db;
    reply := PostReply(200, None);
  }

  /** One entry of the GET reply; `files` is present only when file content was
      requested and the document has a `files` field. */
  datatype SubmissionListing = SubmissionListing(
    id: nat,
    teamCode: string,
    questionType: QuestionValue,
    explanation: string,
    fileNames: seq<string>,
    submittedAt: int,
    files: Option<seq<FileRecord>>)

  datatype ListReply = ListReply(status: int, submissions: seq<SubmissionListing>)

  /** `find({ teamCode })`: the documents with that code, in stored order. */
  function Matching(docs: seq<SubmissionDoc>, code: string): (r: seq<SubmissionDoc>)
    ensures |r| <= |docs|
    ensures forall d :: d in r <==> d in docs && d.teamCode == code
  {
    if docs == [] then []
    else if docs[0].teamCode == code then [docs[0]] + Matching(docs[1..], code)
    else Matching(docs[1..], code)
  }

  lemma {:induction false} NoneMatching(docs: seq<SubmissionDoc>, code: string)
    requires forall d :: d in docs ==> d.teamCode != code
    ensures Matching(docs, code) == []
  {
    if docs != [] {
      assert docs[0] in docs;
      assert forall d :: d in docs[1..] ==> d in docs;
      NoneMatching(docs[1..], code);
    }
  }

  /** Without duplicate team codes a team never has more than one submission to
      list. */
  lemma {:induction false} AtMostOneMatch(docs: seq<SubmissionDoc>, code: string)
    requires SubmissionsUnique(docs)
    ensures |Matching(docs, code)| <= 1
  {
    if docs != [] {
      var rest := docs[1..];
      assert SubmissionsUnique(rest) by {
        forall i, j | 0 <= i < j < |rest| ensures rest[i].teamCode != rest[j].teamCode {
          assert rest[i] == docs[i + 1] && rest[j] == docs[j + 1];
        }
      }
      AtMostOneMatch(rest, code);
      if docs[0].teamCode == code {
        assert forall j :: 0 <= j < |rest| ==> rest[j] == docs[j + 1];
        assert forall d :: d in rest ==> d.teamCode != code;
        NoneMatching(rest, code);
      }
    }
  }

  function Listing(d: SubmissionDoc, includeFiles: bool): SubmissionListing
  {
    SubmissionListing(d.id, d.teamCode, d.questionType, d.explanation,
      if d.fileNames.Some? then d.fileNames.value else [], d.submittedAt,
      if includeFiles && d.files.Some? then d.files else None)
  }

  function Listings(docs: seq<SubmissionDoc>, includeFiles: bool): (r: seq<SubmissionListing>)
    ensures |r| == |docs|
    ensures forall i :: 0 <= i < |docs| ==> r[i] == Listing(docs[i], includeFiles)
  {
    if docs == [] then [] else [Listing(docs[0], includeFiles)] + Listings(docs[1..], includeFiles)
  }

  /** GET: the team's submissions under the lower-cased code, with `files` only
      when `includeFileContent` is exactly "true" and the document has them. */
  function ListSubmissions(s: DbState, teamCode: Option<string>, includeFileContent: Option<string>): (r: ListReply)
    ensures r.status in {200, 400}
    ensures r.status == 400 <==> teamCode.None? || teamCode.value == ""
    ensures r.status == 400 ==> r.submissions == []
    ensures r.status == 200 ==>
      var found := Matching(s.teamSubmissions, Lower(teamCode.value));
      && |r.submissions| == |found|
      && forall i :: 0 <= i < |found| ==>
        && r.submissions[i].id == found[i].id
        && r.submissions[i].teamCode == Lower(teamCode.value)
        && (r.submissions[i].files.Some? <==> includeFileContent == Some("true") && found[i].files.Some?)
        && (r.submissions[i].files.Some? ==> r.submissions[i].files == found[i].files)
        && (found[i].fileNames.Some? ==> r.submissions[i].fileNames == found[i].fileNames.value)
        && (found[i].fileNames.None? ==> r.submissions[i].fileNames == [])
    ensures r.status == 200 ==>
      r.submissions == Listings(Matching(s.teamSubmissions, Lower(teamCode.value)), includeFileContent == Some("true"))
  {
    if teamCode.None? || teamCode.value == "" then ListReply(400, [])
    else
      var found := Matching(s.teamSubmissions, Lower(teamCode.value));
      assert forall i :: 0 <= i < |found| ==> found[i] in found;
      ListReply(200, Listings(found, includeFileContent == Some("true")))
  }

  /** In a well-formed store the listing holds at most one submission. */
  lemma ListHasAtMostOne(s: DbState, teamCode: Option<string>, includeFileContent: Option<string>)
    requires WellFormed(s)
    ensures |ListSubmissions(s, teamCode, includeFileContent).submissions| <= 1
  {
    if teamCode.Some? && teamCode.value != "" {
      AtMostOneMatch(s.teamSubmissions, Lower(teamCode.value));
    }
  }
}
